/** A participant of a collection: the link between a collection and a
    pseud, carrying one of four roles, and the checks made on its role. */
module Participants {
  import opened Lists

  type CollectionId = nat
  type PseudId = nat

  /** The four participant roles. `NoneRole` is the role named "None". */
  datatype Role = NoneRole | Owner | Moderator | Member

  /** PARTICIPANT_ROLES, in the order the archive lists them. */
  const ParticipantRoles: seq<string> := ["None", "Owner", "Moderator", "Member"]

  /** The string stored in the participant_role column for a role. */
  function RoleName(r: Role): (s: string)
    ensures s in ParticipantRoles
  {
    match r
    case NoneRole => ParticipantRoles[0]
    case Owner => ParticipantRoles[1]
    case Moderator => ParticipantRoles[2]
    case Member => ParticipantRoles[3]
  }

  /** The role a stored string names, if it names one. */
  function ParseRole(s: string): (r: Option<Role>)
    ensures r.Some? <==> s in ParticipantRoles
    ensures r.Some? ==> RoleName(r.value) == s
  {
    if s == "None" then Some(NoneRole)
    else if s == "Owner" then Some(Owner)
    else if s == "Moderator" then Some(Moderator)
    else if s == "Member" then Some(Member)
    else None
  }

  /** Every role is stored under its own name and read back as itself. */
  lemma RoleNameRoundTrip(r: Role, r': Role)
    ensures ParseRole(RoleName(r)) == Some(r)
    ensures RoleName(r) == RoleName(r') ==> r == r'
  {
  }

  datatype RoleError =
    | RoleMissing   // validates_presence_of :participant_role
    | RoleInvalid   // validates_inclusion_of :participant_role

  /** The errors the two role validations add, in declaration order. */
  function RoleErrors(s: string): (errs: seq<RoleError>)
    ensures errs == [] <==> ParseRole(s).Some?
    ensures Blank(s) ==> errs == [RoleMissing, RoleInvalid]
    ensures !Blank(s) && ParseRole(s).None? ==> errs == [RoleInvalid]
  {
    if Blank(s) then
      assert |s| > 0 ==> IsSpace(s[0]);
      [RoleMissing, RoleInvalid]
    else if s in ParticipantRoles then []
    else [RoleInvalid]
  }

  datatype Participant = Participant(collection: CollectionId, pseud: PseudId, role: Role)

  predicate IsOwner(p: Participant) { p.role == Owner }
  predicate IsModerator(p: Participant) { p.role == Moderator }
  predicate IsMaintainer(p: Participant) { IsOwner(p) || IsModerator(p) }
  predicate IsMember(p: Participant) { p.role == Member }

  /** The role predicates partition the roles: maintainers are exactly
      owners and moderators, no participant answers to two of them, and a
      participant with role None answers to none. */
  lemma RolePredicates(p: Participant)
    ensures IsMaintainer(p) <==> p.role == Owner || p.role == Moderator
    ensures !(IsOwner(p) && IsModerator(p)) && !(IsOwner(p) && IsMember(p)) && !(IsModerator(p) && IsMember(p))
    ensures p.role == NoneRole <==> !IsOwner(p) && !IsModerator(p) && !IsMember(p)
  {
  }
}

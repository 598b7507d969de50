/** The rules attached to a participant record: the validations its save
    runs (one record per collection and pseud, a valid role) and who may
    destroy it or change its role. */
module Membership {
  import opened Lists
  import opened Participants
  import opened Records
  import opened Aggregates

  datatype ParticipantError =
    | NotUnique                  // validates_uniqueness_of :pseud_id, scope: collection_id
    | BadRole(error: RoleError)  // presence and inclusion of participant_role

  /** Some record other than `self` already links pseud `p` to collection `c`. */
  predicate Taken(parts: seq<Participant>, c: CollectionId, p: PseudId, self: Option<nat>) {
    exists j :: 0 <= j < |parts| && Some(j) != self && parts[j].collection == c && parts[j].pseud == p
  }

  /** The errors saving a participant record of collection `c` and pseud `p`
      with role string `roleName` would add; `self` is the record's own id
      when it is already stored. */
  function SaveErrors(parts: seq<Participant>, c: CollectionId, p: PseudId, roleName: string, self: Option<nat>): (errs: seq<ParticipantError>)
    ensures errs == [] <==> !Taken(parts, c, p, self) && ParseRole(roleName).Some?
    ensures NotUnique in errs <==> Taken(parts, c, p, self)
  {
    var roleErrs := RoleErrors(roleName);
    (if Taken(parts, c, p, self) then [NotUnique] else [])
    + seq(|roleErrs|, i requires 0 <= i < |roleErrs| => BadRole(roleErrs[i]))
  }

  /** No two participant records link the same pseud to the same collection. */
  predicate UniqueMemberships(parts: seq<Participant>) {
    forall i, j :: 0 <= i < |parts| && 0 <= j < |parts| && i != j && parts[i].collection == parts[j].collection
      ==> parts[i].pseud != parts[j].pseud
  }

  /** A new record that passes the save validations keeps memberships unique,
      and the validations refuse every record that would duplicate one. */
  lemma {:induction false} CreateKeepsUnique(parts: seq<Participant>, c: CollectionId, p: PseudId, role: Role)
    requires UniqueMemberships(parts)
    ensures SaveErrors(parts, c, p, RoleName(role), None) == [] <==> !Taken(parts, c, p, None)
    ensures SaveErrors(parts, c, p, RoleName(role), None) == [] ==> UniqueMemberships(parts + [Participant(c, p, role)])
  {
    RoleNameRoundTrip(role, role);
    var parts' := parts + [Participant(c, p, role)];
    if !Taken(parts, c, p, None) {
      forall i, j | 0 <= i < |parts'| && 0 <= j < |parts'| && i != j && parts'[i].collection == parts'[j].collection
        ensures parts'[i].pseud != parts'[j].pseud
      {
        if i == |parts| {
          assert parts'[j] == parts[j];
        } else if j == |parts| {
          assert parts'[i] == parts[i];
        } else {
          assert parts'[i] == parts[i] && parts'[j] == parts[j];
        }
      }
    }
  }

  /** In a table with unique memberships, a stored record with a valid role
      saves again without error whatever its role becomes. */
  lemma StoredRecordSaves(parts: seq<Participant>, i: nat, role: Role)
    requires UniqueMemberships(parts) && i < |parts|
    ensures SaveErrors(parts, parts[i].collection, parts[i].pseud, RoleName(role), Some(i)) == []
  {
    RoleNameRoundTrip(role, role);
  }

  /** The table after approve_membership! on record `pid`: its role becomes
      Member and nothing else changes. */
  function Approve(parts: seq<Participant>, pid: nat): (r: seq<Participant>)
    requires pid < |parts|
    ensures |r| == |parts|
    ensures r[pid].role == Member && r[pid].collection == parts[pid].collection && r[pid].pseud == parts[pid].pseud
    ensures forall i :: 0 <= i < |parts| && i != pid ==> r[i] == parts[i]
  {
    parts[pid := parts[pid].(role := Member)]
  }

  /** Approving twice is approving once, and approval keeps memberships unique. */
  lemma ApproveIdempotent(parts: seq<Participant>, pid: nat)
    requires pid < |parts|
    ensures Approve(Approve(parts, pid), pid) == Approve(parts, pid)
    ensures UniqueMemberships(parts) ==> UniqueMemberships(Approve(parts, pid))
  {
    var r := Approve(parts, pid);
    if UniqueMemberships(parts) {
      assert forall i :: 0 <= i < |parts| ==> r[i].collection == parts[i].collection && r[i].pseud == parts[i].pseud;
    }
  }

  /** user_allowed_to_destroy?: the actor maintains the participant's
      collection, or the participant's pseud belongs to the actor. */
  function UserAllowedToDestroy(db: Db, pid: nat, actor: Option<UserId>): bool
    requires WellFormed(db) && pid < |db.participants|
  {
    var rec := db.participants[pid];
    UserIsMaintainer(db, rec.collection, actor) || Some(db.pseuds[rec.pseud].user) == actor
  }

  /** A user may always remove their own pseud's membership; otherwise they
      need to own or moderate the collection or its parent. */
  lemma DestroyMeaning(db: Db, pid: nat, actor: Option<UserId>)
    requires WellFormed(db) && pid < |db.participants|
    ensures UserAllowedToDestroy(db, pid, actor) <==>
      actor.Some? &&
      (db.pseuds[db.participants[pid].pseud].user == actor.value
       || UserHolds(db, db.participants[pid].collection, actor.value, Owners)
       || UserHolds(db, db.participants[pid].collection, actor.value, Moderators))
  {
    UserStanding(db, db.participants[pid].collection, actor);
  }

  /** user_allowed_to_promote?: setting the role "Member" or "None" needs a
      maintainer of the collection; any other role string needs an owner. */
  function UserAllowedToPromote(db: Db, pid: nat, actor: Option<UserId>, role: string): bool
    requires pid < |db.participants| && db.participants[pid].collection < |db.collections|
  {
    var c := db.participants[pid].collection;
    if role == RoleName(Member) || role == RoleName(NoneRole) then UserIsMaintainer(db, c, actor)
    else UserIsOwner(db, c, actor)
  }

  /** Granting power needs more than lowering it: whoever may set an
      elevated role (Owner, Moderator or anything unrecognised) may also set
      Member or None; moderators may set only the low roles. */
  lemma PromoteMonotone(db: Db, pid: nat, actor: Option<UserId>, elevated: string, low: Role)
    requires pid < |db.participants| && db.participants[pid].collection < |db.collections|
    requires low == Member || low == NoneRole
    ensures UserAllowedToPromote(db, pid, actor, elevated) ==> UserAllowedToPromote(db, pid, actor, RoleName(low))
    ensures UserAllowedToPromote(db, pid, actor, RoleName(Owner)) <==> UserIsOwner(db, db.participants[pid].collection, actor)
    ensures UserAllowedToPromote(db, pid, actor, RoleName(Moderator)) <==> UserIsOwner(db, db.participants[pid].collection, actor)
    ensures UserAllowedToPromote(db, pid, actor, RoleName(low)) <==> UserIsMaintainer(db, db.participants[pid].collection, actor)
  {
    OwnersAndModeratorsMaintain(db, db.participants[pid].collection, actor);
    RoleNameRoundTrip(Owner, Member);
    RoleNameRoundTrip(Owner, NoneRole);
    RoleNameRoundTrip(Moderator, Member);
    RoleNameRoundTrip(Moderator, NoneRole);
  }
}

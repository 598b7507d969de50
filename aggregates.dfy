/** Aggregation over the two-level collection tree. Participant role sets
    flow down (a collection's own participants together with its parent's);
    approved content rolls up (a collection's own approved items together
    with its children's). */
module Aggregates {
  import opened Lists
  import opened Participants
  import opened Records

  // ---------------------------------------------------------------------
  // Role sets
  // ---------------------------------------------------------------------

  /** The five participant associations: owners, moderators, members,
      posting_participants (member, moderator or owner) and participants
      (every role, None included). */
  datatype RoleSet = Owners | Moderators | Members | PostingParticipants | Participants

  predicate Admits(s: RoleSet, r: Role) {
    match s
    case Owners => r == Owner
    case Moderators => r == Moderator
    case Members => r == Member
    case PostingParticipants => r == Member || r == Moderator || r == Owner
    case Participants => true
  }

  /** Participant record `p` links pseud `x` to collection `c` with a role in `s`. */
  predicate Links(p: Participant, c: CollectionId, x: PseudId, s: RoleSet) {
    p.collection == c && p.pseud == x && Admits(s, p.role)
  }

  /** Some participant record links pseud `x` to collection `c` with a role in `s`. */
  ghost predicate HoldsIn(db: Db, c: CollectionId, x: PseudId, s: RoleSet) {
    exists i :: 0 <= i < |db.participants| && Links(db.participants[i], c, x, s)
  }

  /** `x` holds a role in `s` in collection `c` or in c's parent. */
  ghost predicate HoldsInTree(db: Db, c: CollectionId, x: PseudId, s: RoleSet)
    requires c < |db.collections|
  {
    HoldsIn(db, c, x, s) || (Parent(db, c).Some? && HoldsIn(db, Parent(db, c).value, x, s))
  }

  /** The pseuds that the participant records link to `c` with a role in
      `s`, in record order (the has_many :through associations). */
  function PseudsWith(parts: seq<Participant>, c: CollectionId, s: RoleSet): (r: seq<PseudId>)
    ensures forall x: nat :: x in r <==> exists i :: 0 <= i < |parts| && Links(parts[i], c, x, s)
    ensures |r| <= |parts|
  {
    if parts == [] then []
    else
      var init := parts[..|parts| - 1];
      var last := parts[|parts| - 1];
      assert parts == init + [last];
      var r := PseudsWith(init, c, s) + (if last.collection == c && Admits(s, last.role) then [last.pseud] else []);
      assert forall x: nat :: (exists i :: 0 <= i < |parts| && Links(parts[i], c, x, s)) <==>
        ((exists i :: 0 <= i < |init| && Links(init[i], c, x, s)) || Links(last, c, x, s));
      r
  }

  /** c.owners, c.moderators, ... : the collection's own pseuds with a role in `s`. */
  function Own(db: Db, c: CollectionId, s: RoleSet): seq<PseudId> {
    PseudsWith(db.participants, c, s)
  }

  /** all_owners, all_moderators, all_members, all_posting_participants and
      all_participants: own list followed by the parent's, duplicates removed. */
  function All(db: Db, c: CollectionId, s: RoleSet): (r: seq<PseudId>)
    requires c < |db.collections|
    ensures NoDup(r)
    ensures forall x: nat :: x in r <==> HoldsInTree(db, c, x, s)
    ensures forall x :: x in r <==> x in Own(db, c, s) || (Parent(db, c).Some? && x in Own(db, Parent(db, c).value, s))
  {
    Uniq(Own(db, c, s) + (match Parent(db, c) case Some(p) => Own(db, p, s) case None => []))
  }

  /** maintainers: all owners followed by all moderators (no duplicate removal). */
  function Maintainers(db: Db, c: CollectionId): (r: seq<PseudId>)
    requires c < |db.collections|
    ensures forall x: nat :: x in r <==> HoldsInTree(db, c, x, Owners) || HoldsInTree(db, c, x, Moderators)
  {
    All(db, c, Owners) + All(db, c, Moderators)
  }

  // ---------------------------------------------------------------------
  // The acting user's standing
  // ---------------------------------------------------------------------

  /** `user.pseuds & list` is non-empty. */
  function UserHasPseudIn(db: Db, u: UserId, list: seq<PseudId>): (b: bool)
    ensures b <==> exists x :: x in list && x < |db.pseuds| && db.pseuds[x].user == u
  {
    var common := Intersect(PseudsOfUser(db, u), list);
    assert forall x :: x in common <==> x in list && x < |db.pseuds| && db.pseuds[x].user == u;
    if common == [] then false
    else
      assert common[0] in common;
      true
  }

  /** Some pseud of user `u` holds a role in `s` in `c` or c's parent. */
  ghost predicate UserHolds(db: Db, c: CollectionId, u: UserId, s: RoleSet)
    requires c < |db.collections|
  {
    exists x :: 0 <= x < |db.pseuds| && db.pseuds[x].user == u && HoldsInTree(db, c, x, s)
  }

  /** user_is_owner?: the actor is a real user (not nil or :false) and one of
      their pseuds is among all_owners. */
  function UserIsOwner(db: Db, c: CollectionId, actor: Option<UserId>): bool
    requires c < |db.collections|
  {
    actor.Some? && UserHasPseudIn(db, actor.value, All(db, c, Owners))
  }

  function UserIsModerator(db: Db, c: CollectionId, actor: Option<UserId>): bool
    requires c < |db.collections|
  {
    actor.Some? && UserHasPseudIn(db, actor.value, All(db, c, Moderators))
  }

  function UserIsMaintainer(db: Db, c: CollectionId, actor: Option<UserId>): bool
    requires c < |db.collections|
  {
    actor.Some? && UserHasPseudIn(db, actor.value, All(db, c, Moderators) + All(db, c, Owners))
  }

  function UserIsPostingParticipant(db: Db, c: CollectionId, actor: Option<UserId>): bool
    requires c < |db.collections|
  {
    actor.Some? && UserHasPseudIn(db, actor.value, All(db, c, PostingParticipants))
  }

  /** get_participating_pseuds_for_user: the actor's pseuds among all
      participants, or nothing without a real user. */
  function ParticipatingPseudsForUser(db: Db, c: CollectionId, actor: Option<UserId>): (r: seq<PseudId>)
    requires c < |db.collections|
    ensures NoDup(r)
    ensures forall x: nat :: x in r <==>
      actor.Some? && x < |db.pseuds| && db.pseuds[x].user == actor.value && HoldsInTree(db, c, x, Participants)
  {
    if actor.Some? then Intersect(PseudsOfUser(db, actor.value), All(db, c, Participants)) else []
  }

  function UserIsParticipant(db: Db, c: CollectionId, actor: Option<UserId>): bool
    requires c < |db.collections|
  {
    actor.Some? && ParticipatingPseudsForUser(db, c, actor) != []
  }

  /** One of u's pseuds is in all_* for `s` exactly when u holds `s` in the tree. */
  lemma UserInAll(db: Db, c: CollectionId, u: UserId, s: RoleSet)
    requires c < |db.collections|
    ensures UserHasPseudIn(db, u, All(db, c, s)) <==> UserHolds(db, c, u, s)
  {
  }

  lemma ParticipantStanding(db: Db, c: CollectionId, actor: Option<UserId>)
    requires c < |db.collections|
    ensures UserIsParticipant(db, c, actor) <==> actor.Some? && UserHolds(db, c, actor.value, Participants)
  {
    if actor.Some? {
      var u := actor.value;
      if UserIsParticipant(db, c, actor) {
        var r := ParticipatingPseudsForUser(db, c, actor);
        assert r[0] in r;
      }
      if UserHolds(db, c, u, Participants) {
        var x :| 0 <= x < |db.pseuds| && db.pseuds[x].user == u && HoldsInTree(db, c, x, Participants);
        assert x in ParticipatingPseudsForUser(db, c, actor);
      }
    }
  }

  lemma MaintainerStanding(db: Db, c: CollectionId, actor: Option<UserId>)
    requires c < |db.collections|
    ensures UserIsMaintainer(db, c, actor) <==>
      actor.Some? && (UserHolds(db, c, actor.value, Owners) || UserHolds(db, c, actor.value, Moderators))
  {
    if actor.Some? {
      var u := actor.value;
      var ms := All(db, c, Moderators) + All(db, c, Owners);
      assert forall x :: x in ms <==> x in All(db, c, Moderators) || x in All(db, c, Owners);
      assert UserHasPseudIn(db, u, ms) <==> UserHasPseudIn(db, u, All(db, c, Moderators)) || UserHasPseudIn(db, u, All(db, c, Owners));
      UserInAll(db, c, u, Owners);
      UserInAll(db, c, u, Moderators);
    }
  }

  /** Each user_is_* predicate holds exactly when the actor is a real user one
      of whose pseuds holds a matching role in the collection or its parent. */
  lemma {:induction false} UserStanding(db: Db, c: CollectionId, actor: Option<UserId>)
    requires c < |db.collections|
    ensures UserIsOwner(db, c, actor) <==> actor.Some? && UserHolds(db, c, actor.value, Owners)
    ensures UserIsModerator(db, c, actor) <==> actor.Some? && UserHolds(db, c, actor.value, Moderators)
    ensures UserIsPostingParticipant(db, c, actor) <==> actor.Some? && UserHolds(db, c, actor.value, PostingParticipants)
    ensures UserIsParticipant(db, c, actor) <==> actor.Some? && UserHolds(db, c, actor.value, Participants)
    ensures UserIsMaintainer(db, c, actor) <==>
      actor.Some? && (UserHolds(db, c, actor.value, Owners) || UserHolds(db, c, actor.value, Moderators))
  {
    if actor.Some? {
      UserInAll(db, c, actor.value, Owners);
      UserInAll(db, c, actor.value, Moderators);
      UserInAll(db, c, actor.value, PostingParticipants);
    }
    ParticipantStanding(db, c, actor);
    MaintainerStanding(db, c, actor);
  }

  /** Permission flows down: a pseud that moderates or owns the parent makes
      its user a maintainer of every child, whatever the child's own
      participants are. */
  lemma ParentMaintainerMaintainsChild(db: Db, c: CollectionId, u: UserId, x: PseudId, s: RoleSet)
    requires c < |db.collections| && Parent(db, c).Some?
    requires s == Owners || s == Moderators
    requires x < |db.pseuds| && db.pseuds[x].user == u
    requires HoldsIn(db, Parent(db, c).value, x, s)
    ensures UserIsMaintainer(db, c, Some(u))
  {
    UserStanding(db, c, Some(u));
    assert HoldsInTree(db, c, x, s);
  }

  /** An owner is a maintainer, and so is a moderator. */
  lemma OwnersAndModeratorsMaintain(db: Db, c: CollectionId, actor: Option<UserId>)
    requires c < |db.collections|
    ensures UserIsOwner(db, c, actor) ==> UserIsMaintainer(db, c, actor)
    ensures UserIsModerator(db, c, actor) ==> UserIsMaintainer(db, c, actor)
  {
    UserStanding(db, c, actor);
  }

  // ---------------------------------------------------------------------
  // Approved content
  // ---------------------------------------------------------------------

  /** Both the contributing user and the collection approved the item (the
      approved_collection_items condition). */
  predicate ApprovedItem(it: CollectionItem) {
    it.userApproval == APPROVED && it.collectionApproval == APPROVED
  }

  /** The item counts as approved content of kind `k` in collection `c`:
      approved twice over and, for a work, posted. */
  predicate Visible(it: CollectionItem, posted: set<WorkId>, c: CollectionId, k: ContentKind) {
    it.collection == c && it.item.kind == k && ApprovedItem(it) && (k == Work ==> it.item.id in posted)
  }

  function ApprovedOf(items: seq<CollectionItem>, posted: set<WorkId>, c: CollectionId, k: ContentKind): (r: seq<nat>)
    ensures forall x: nat :: x in r <==> exists i :: 0 <= i < |items| && Visible(items[i], posted, c, k) && items[i].item.id == x
    ensures |r| <= |items|
  {
    if items == [] then []
    else
      var init := items[..|items| - 1];
      var last := items[|items| - 1];
      assert items == init + [last];
      var r := ApprovedOf(init, posted, c, k) + (if Visible(last, posted, c, k) then [last.item.id] else []);
      r
  }

  /** approved_works (k == Work) and approved_bookmarks (k == Bookmark) of `c`. */
  function Approved(db: Db, c: CollectionId, k: ContentKind): seq<nat> {
    ApprovedOf(db.items, db.postedWorks, c, k)
  }

  /** cs.collect(&:approved_works).flatten, likewise for bookmarks. */
  function ApprovedIn(db: Db, cs: seq<CollectionId>, k: ContentKind): (r: seq<nat>)
    ensures forall x :: x in r <==> exists j :: 0 <= j < |cs| && x in Approved(db, cs[j], k)
  {
    if cs == [] then []
    else
      var init := cs[..|cs| - 1];
      assert cs == init + [cs[|cs| - 1]];
      ApprovedIn(db, init, k) + Approved(db, cs[|cs| - 1], k)
  }

  /** The approved content of `c` followed by its children's, duplicates kept. */
  function ApprovedInTree(db: Db, c: CollectionId, k: ContentKind): seq<nat> {
    Approved(db, c, k) + ApprovedIn(db, Children(db, c), k)
  }

  /** all_approved_works / all_approved_bookmarks: own approved items
      followed by the children's, duplicates removed. */
  function AllApproved(db: Db, c: CollectionId, k: ContentKind): (r: seq<nat>)
    requires c < |db.collections|
    ensures NoDup(r)
    ensures forall x :: x in r <==>
      x in Approved(db, c, k) || exists d :: 0 <= d < |db.collections| && Parent(db, d) == Some(c) && x in Approved(db, d, k)
  {
    var children := Children(db, c);
    var r := Uniq(ApprovedInTree(db, c, k));
    forall x, d | 0 <= d < |db.collections| && Parent(db, d) == Some(c) && x in Approved(db, d, k)
      ensures x in r
    {
      assert d in children;
      var j :| 0 <= j < |children| && children[j] == d;
    }
    r
  }

  /** all_approved_works_count / all_approved_bookmarks_count: the count of
      own approved items plus, child by child, each child's count. The total
      is the length of the undeduplicated list of own and children's items. */
  method AllApprovedCount(db: Db, c: CollectionId, k: ContentKind) returns (count: nat)
    ensures count == |ApprovedInTree(db, c, k)|
  {
    count := |Approved(db, c, k)|;
    var children := Children(db, c);
    var i := 0;
    while i < |children|
      invariant 0 <= i <= |children|
      invariant count == |Approved(db, c, k)| + |ApprovedIn(db, children[..i], k)|
    {
      assert children[..i + 1][..i] == children[..i];
      count := count + |Approved(db, children[i], k)|;
      i := i + 1;
    }
    assert children[..i] == children;
  }

  /** The summed count never falls below the size of the deduplicated list,
      and equals it exactly when no item occurs twice across the tree. */
  lemma CountBoundsList(db: Db, c: CollectionId, k: ContentKind)
    requires c < |db.collections|
    ensures |AllApproved(db, c, k)| <= |ApprovedInTree(db, c, k)|
    ensures |AllApproved(db, c, k)| == |ApprovedInTree(db, c, k)| <==> NoDup(ApprovedInTree(db, c, k))
  {
    UniqLength(ApprovedInTree(db, c, k));
  }

  /** An item approved both in a collection and in one of its children is
      listed once by all_approved_* but counted twice by the *_count variant. */
  lemma SharedItemOvercounted(db: Db, c: CollectionId, d: CollectionId, k: ContentKind, x: nat)
    requires c < |db.collections| && d < |db.collections| && Parent(db, d) == Some(c)
    requires x in Approved(db, c, k) && x in Approved(db, d, k)
    ensures |AllApproved(db, c, k)| < |ApprovedInTree(db, c, k)|
  {
    var children := Children(db, c);
    assert d in children;
    assert x in ApprovedIn(db, children, k);
    SharedElementDuplicates(Approved(db, c, k), ApprovedIn(db, children, k), x);
    CountBoundsList(db, c, k);
  }

  /** autocomplete_score: approved works plus approved bookmarks, both counted
      across the collection and its children. */
  method AutocompleteScore(db: Db, c: CollectionId) returns (score: nat)
    ensures score == |ApprovedInTree(db, c, Work)| + |ApprovedInTree(db, c, Bookmark)|
  {
    var works := AllApprovedCount(db, c, Work);
    var bookmarks := AllApprovedCount(db, c, Bookmark);
    score := works + bookmarks;
  }

  /** not_empty?: some approved work, a child collection, or some approved bookmark. */
  function NotEmpty(db: Db, c: CollectionId): bool
    requires c < |db.collections|
  {
    |AllApproved(db, c, Work)| > 0 || |Children(db, c)| > 0 || |AllApproved(db, c, Bookmark)| > 0
  }

  /** A collection is non-empty exactly when it has approved content of its
      own or a child: a child's content makes it non-empty only through the
      child itself. */
  lemma NotEmptyMeaning(db: Db, c: CollectionId)
    requires c < |db.collections|
    ensures NotEmpty(db, c) <==> Approved(db, c, Work) != [] || Approved(db, c, Bookmark) != [] || Children(db, c) != []
  {
    forall k: ContentKind | AllApproved(db, c, k) != [] && Approved(db, c, k) == []
      ensures Children(db, c) != []
    {
      var x := AllApproved(db, c, k)[0];
      assert x in AllApproved(db, c, k);
      var d :| 0 <= d < |db.collections| && Parent(db, d) == Some(c) && x in Approved(db, d, k);
      assert d in Children(db, c);
    }
    forall k: ContentKind | Approved(db, c, k) != []
      ensures AllApproved(db, c, k) != []
    {
      assert Approved(db, c, k)[0] in AllApproved(db, c, k);
    }
  }

  // ---------------------------------------------------------------------
  // Fallbacks to the parent
  // ---------------------------------------------------------------------

  datatype NotificationKind = AssignmentNotification | GiftNotification

  function ProfileText(p: Profile, k: NotificationKind): Option<string> {
    match k
    case AssignmentNotification => p.assignmentNotification
    case GiftNotification => p.giftNotification
  }

  /** assignment_notification / gift_notification: the collection's own text
      if set, else the parent's (which may itself be unset), else "". */
  function Notification(db: Db, c: CollectionId, k: NotificationKind): (r: Option<string>)
    requires c < |db.collections|
    ensures r.None? <==> ProfileText(db.collections[c].profile, k).None? && Parent(db, c).Some?
                          && ProfileText(db.collections[Parent(db, c).value].profile, k).None?
    ensures ProfileText(db.collections[c].profile, k).Some? ==> r == ProfileText(db.collections[c].profile, k)
    ensures r.Some? && r.value != "" ==>
      r == ProfileText(db.collections[c].profile, k)
      || (Parent(db, c).Some? && r == ProfileText(db.collections[Parent(db, c).value].profile, k))
    ensures ProfileText(db.collections[c].profile, k).None? && Parent(db, c).Some? ==>
      r == ProfileText(db.collections[Parent(db, c).value].profile, k)
    ensures ProfileText(db.collections[c].profile, k).None? && Parent(db, c).None? ==> r == Some("")
  {
    var own := ProfileText(db.collections[c].profile, k);
    if own.Some? then own
    else match Parent(db, c)
      case Some(p) => ProfileText(db.collections[p].profile, k)
      case None => Some("")
  }

  /** The users owning pseuds `ps`, in order. */
  function UsersOf(db: Db, ps: seq<PseudId>): (r: seq<UserId>)
    requires WellFormed(db) && forall i :: 0 <= i < |ps| ==> ps[i] < |db.pseuds|
    ensures |r| == |ps| && forall i :: 0 <= i < |ps| ==> r[i] == db.pseuds[ps[i]].user && r[i] < |db.users|
  {
    seq(|ps|, i requires 0 <= i < |ps| => db.pseuds[ps[i]].user)
  }

  /** The users owning pseuds `ps` are exactly the owners of the listed pseuds. */
  lemma UsersOfMembership(db: Db, ps: seq<PseudId>)
    requires WellFormed(db) && forall i :: 0 <= i < |ps| ==> ps[i] < |db.pseuds|
    ensures forall u :: u in UsersOf(db, ps) <==> exists x :: 0 <= x < |db.pseuds| && db.pseuds[x].user == u && x in ps
  {
    var users := UsersOf(db, ps);
    forall u | exists x :: 0 <= x < |db.pseuds| && db.pseuds[x].user == u && x in ps
      ensures u in users
    {
      var x :| 0 <= x < |db.pseuds| && db.pseuds[x].user == u && x in ps;
      var i :| 0 <= i < |ps| && ps[i] == x;
      assert users[i] == u;
    }
  }

  /** Every maintainer is an existing pseud. */
  lemma MaintainersExist(db: Db, c: CollectionId)
    requires WellFormed(db) && c < |db.collections|
    ensures forall i :: 0 <= i < |Maintainers(db, c)| ==> Maintainers(db, c)[i] < |db.pseuds|
  {
    var ms := Maintainers(db, c);
    forall i | 0 <= i < |ms| ensures ms[i] < |db.pseuds| {
      assert ms[i] in ms;
      var j :| 0 <= j < |db.participants| && db.participants[j].pseud == ms[i];
    }
  }

  /** The distinct users behind the maintainers' pseuds, in maintainer order. */
  function MaintainerUsers(db: Db, c: CollectionId): (r: seq<UserId>)
    requires WellFormed(db) && c < |db.collections|
    ensures NoDup(r)
    ensures forall i :: 0 <= i < |r| ==> r[i] < |db.users|
    ensures forall u :: u in r <==>
      exists x :: 0 <= x < |db.pseuds| && db.pseuds[x].user == u
                  && (HoldsInTree(db, c, x, Owners) || HoldsInTree(db, c, x, Moderators))
  {
    var ms := Maintainers(db, c);
    MaintainersExist(db, c);
    var users := UsersOf(db, ms);
    UsersOfMembership(db, ms);
    var r := Uniq(users);
    assert forall i :: 0 <= i < |r| ==> r[i] in users;
    r
  }

  /** The email addresses of users `us`, in order. */
  function Emails(db: Db, us: seq<UserId>): (r: seq<string>)
    requires forall i :: 0 <= i < |us| ==> us[i] < |db.users|
    ensures |r| == |us| && forall i :: 0 <= i < |us| ==> r[i] == db.users[us[i]].email
  {
    seq(|us|, i requires 0 <= i < |us| => db.users[us[i]].email)
  }

  /** get_maintainers_email: the collection's email if not blank, else the
      parent's if not blank, else the maintaining users' emails joined by ",". */
  function MaintainersEmail(db: Db, c: CollectionId): (r: string)
    requires WellFormed(db) && c < |db.collections|
    ensures !Blank(db.collections[c].email) ==> r == db.collections[c].email
    ensures Blank(db.collections[c].email) && Parent(db, c).Some? && !Blank(db.collections[Parent(db, c).value].email)
            ==> r == db.collections[Parent(db, c).value].email
    ensures Blank(db.collections[c].email) && !(Parent(db, c).Some? && !Blank(db.collections[Parent(db, c).value].email))
            ==> r == Join(",", Emails(db, MaintainerUsers(db, c)))
  {
    var own := db.collections[c].email;
    if !Blank(own) then own
    else if Parent(db, c).Some? && !Blank(db.collections[Parent(db, c).value].email) then
      db.collections[Parent(db, c).value].email
    else
      Join(",", Emails(db, MaintainerUsers(db, c)))
  }
}

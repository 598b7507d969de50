/** The persisted records of the collection feature, as one snapshot of the
    tables, and the lookups every other module is written with: a
    collection's parent and children, a collection by name, a user's pseuds.
    A record's id is its index in its table. */
module Records {
  import opened Lists
  import opened Participants

  type UserId = nat
  type WorkId = nat

  /** collection_items approval statuses are stored as integers; approved is 1. */
  type ApprovalStatus = int
  const APPROVED: ApprovalStatus := 1

  datatype ChallengeKind = GiftExchange | PromptMeme

  /** The polymorphic challenge reference (challenge_type, challenge_id). */
  datatype ChallengeRef = ChallengeRef(kind: ChallengeKind, id: nat)

  /** CollectionPreference: created with every collection. */
  datatype Preference = Preference(closed: bool, moderated: bool, unrevealed: bool, anonymous: bool)

  /** CollectionProfile: created with every collection; a text left unset is None. */
  datatype Profile = Profile(assignmentNotification: Option<string>, giftNotification: Option<string>)

  /** A collection row. `parentId` is the parent_id column; `parentNameAttr` is
      the name last given to parent_name=, if any. An unset string column is "". */
  datatype Collection = Collection(
    name: string,
    title: string,
    description: string,
    email: string,
    headerImageUrl: string,
    parentId: Option<CollectionId>,
    parentNameAttr: Option<string>,
    challenge: Option<ChallengeRef>,
    preference: Preference,
    profile: Profile)

  /** The row as the table holds it: parent_name= sets an instance
      variable, not a column, so a stored or reloaded row carries none. */
  function Reloaded(row: Collection): (r: Collection)
    ensures r.parentNameAttr.None?
    ensures r.(parentNameAttr := row.parentNameAttr) == row
  {
    row.(parentNameAttr := None)
  }

  /** challenge?: a challenge is attached. */
  predicate IsChallenge(col: Collection) {
    col.challenge.Some?
  }

  /** gift_exchange? and prompt_meme?: the attached challenge's type. */
  predicate IsGiftExchange(col: Collection) {
    col.challenge.Some? && col.challenge.value.kind == GiftExchange
  }

  predicate IsPromptMeme(col: Collection) {
    col.challenge.Some? && col.challenge.value.kind == PromptMeme
  }

  /** A challenge is of exactly one of the two kinds. */
  lemma ChallengeKinds(col: Collection)
    ensures IsChallenge(col) <==> IsGiftExchange(col) || IsPromptMeme(col)
    ensures !(IsGiftExchange(col) && IsPromptMeme(col))
  {
  }

  datatype ContentKind = Work | Bookmark

  /** The polymorphic item reference (item_type, item_id). */
  datatype ItemRef = ItemRef(kind: ContentKind, id: nat)

  /** A collection_items row: an item in a collection with its two approvals
      and the two flags reveal! and reveal_authors! clear. */
  datatype CollectionItem = CollectionItem(
    collection: CollectionId,
    item: ItemRef,
    userApproval: ApprovalStatus,
    collectionApproval: ApprovalStatus,
    unrevealed: bool,
    anonymous: bool)

  datatype Pseud = Pseud(user: UserId, name: string)

  datatype User = User(email: string)

  datatype Db = Db(
    collections: seq<Collection>,
    participants: seq<Participant>,
    items: seq<CollectionItem>,
    pseuds: seq<Pseud>,
    users: seq<User>,
    postedWorks: set<WorkId>)

  /** Foreign keys of participants, items and pseuds name existing rows. */
  predicate WellFormed(db: Db) {
    && (forall i :: 0 <= i < |db.participants| ==>
          db.participants[i].collection < |db.collections| && db.participants[i].pseud < |db.pseuds|)
    && (forall i :: 0 <= i < |db.items| ==> db.items[i].collection < |db.collections|)
    && (forall i :: 0 <= i < |db.pseuds| ==> db.pseuds[i].user < |db.users|)
  }

  /** belongs_to :parent for a row `self`, stored or held in memory: the
      stored row its parent_id names, or none when parent_id is unset or
      names no stored row. */
  function ParentOf(db: Db, self: Collection): (p: Option<CollectionId>)
    ensures p.Some? ==> p.value < |db.collections| && self.parentId == p
    ensures p.None? && self.parentId.Some? ==> self.parentId.value >= |db.collections|
  {
    match self.parentId
    case Some(p) => if p < |db.collections| then Some(p) else None
    case None => None
  }

  /** The parent of stored collection `c`. */
  function Parent(db: Db, c: CollectionId): (p: Option<CollectionId>)
    requires c < |db.collections|
    ensures p.Some? ==> p.value < |db.collections| && db.collections[c].parentId == p
    ensures p.None? && db.collections[c].parentId.Some? ==> db.collections[c].parentId.value >= |db.collections|
  {
    ParentOf(db, db.collections[c])
  }

  /** The collections among the first n whose parent is c, in id order. */
  function ChildrenBelow(db: Db, c: CollectionId, n: nat): (r: seq<CollectionId>)
    requires n <= |db.collections|
    ensures forall d: nat :: d in r <==> d < n && Parent(db, d) == Some(c)
    ensures forall i :: 0 <= i < |r| ==> r[i] < n
  {
    if n == 0 then []
    else ChildrenBelow(db, c, n - 1) + (if Parent(db, n - 1) == Some(c) then [n - 1] else [])
  }

  /** has_many :children. */
  function Children(db: Db, c: CollectionId): (r: seq<CollectionId>)
    ensures forall d: nat :: d in r <==> d < |db.collections| && Parent(db, d) == Some(c)
    ensures forall i :: 0 <= i < |r| ==> r[i] < |db.collections|
  {
    ChildrenBelow(db, c, |db.collections|)
  }

  function FindFrom(cols: seq<Collection>, name: string, i: nat): (r: Option<CollectionId>)
    requires i <= |cols|
    ensures r.Some? ==> i <= r.value < |cols| && cols[r.value].name == name
                        && forall j :: i <= j < r.value ==> cols[j].name != name
    ensures r.None? <==> forall j :: i <= j < |cols| ==> cols[j].name != name
    decreases |cols| - i
  {
    if i == |cols| then None
    else if cols[i].name == name then Some(i)
    else FindFrom(cols, name, i + 1)
  }

  /** Collection.find_by_name: the first collection with exactly this name. */
  function FindByName(db: Db, name: string): (r: Option<CollectionId>)
    ensures r.Some? ==> r.value < |db.collections| && db.collections[r.value].name == name
                        && forall j :: 0 <= j < r.value ==> db.collections[j].name != name
    ensures r.None? <==> forall j :: 0 <= j < |db.collections| ==> db.collections[j].name != name
  {
    FindFrom(db.collections, name, 0)
  }

  function PseudsOfUserBelow(pseuds: seq<Pseud>, u: UserId, n: nat): (r: seq<PseudId>)
    requires n <= |pseuds|
    ensures forall x: nat :: x in r <==> x < n && pseuds[x].user == u
  {
    if n == 0 then []
    else PseudsOfUserBelow(pseuds, u, n - 1) + (if pseuds[n - 1].user == u then [n - 1] else [])
  }

  /** user.pseuds, in id order. */
  function PseudsOfUser(db: Db, u: UserId): (r: seq<PseudId>)
    ensures forall x: nat :: x in r <==> x < |db.pseuds| && db.pseuds[x].user == u
  {
    PseudsOfUserBelow(db.pseuds, u, |db.pseuds|)
  }
}

/** The archive's persisted tables as one object, and the operations that
    change them in place: saving a collection (with its after-save clean-up
    of challenge records), revealing items and authors, creating and
    approving participants, and handing memberships to the orphan account. */
module Archive {
  import opened Lists
  import opened Participants
  import opened Records
  import opened Aggregates
  import opened Validation
  import opened Membership

  /** A row of a challenge-scoped table (assignments, potential matches,
      signups, prompts, claims), with the collection it belongs to. */
  datatype ChallengeRecord = ChallengeRecord(id: nat, collection: CollectionId)

  /** The five challenge-scoped tables a collection has many of. */
  datatype ChallengeTable = Assignments | PotentialMatches | Signups | Prompts | Claims

  /** The deferred operations the archive queues for a worker, by collection. */
  datatype Job =
    | SendRevealNotifications(collection: CollectionId)
    | SendAuthorRevealNotifications(collection: CollectionId)

  // ---------------------------------------------------------------------
  // Revealing items
  // ---------------------------------------------------------------------

  /** The two item flags the reveal operations clear. */
  datatype ItemFlag = Unrevealed | Anonymous

  function FlagOf(it: CollectionItem, f: ItemFlag): bool {
    match f
    case Unrevealed => it.unrevealed
    case Anonymous => it.anonymous
  }

  function Cleared(it: CollectionItem, f: ItemFlag): CollectionItem {
    match f
    case Unrevealed => it.(unrevealed := false)
    case Anonymous => it.(anonymous := false)
  }

  /** approved_collection_items.update_all: the flag is cleared on every
      approved item of collection `c`. */
  function ClearFlag(items: seq<CollectionItem>, c: CollectionId, f: ItemFlag): (r: seq<CollectionItem>)
    ensures |r| == |items|
  {
    seq(|items|, i requires 0 <= i < |items| =>
      if items[i].collection == c && ApprovedItem(items[i]) then Cleared(items[i], f) else items[i])
  }

  /** Exactly the approved items of `c` lose the flag; apart from the flag
      no item changes, and no other item changes at all. */
  lemma ClearFlagEffect(items: seq<CollectionItem>, c: CollectionId, f: ItemFlag)
    ensures forall i :: 0 <= i < |items| ==>
      FlagOf(ClearFlag(items, c, f)[i], f) == (FlagOf(items[i], f) && !(items[i].collection == c && ApprovedItem(items[i])))
    ensures forall i :: 0 <= i < |items| ==> Cleared(ClearFlag(items, c, f)[i], f) == Cleared(items[i], f)
    ensures forall i :: 0 <= i < |items| && !(items[i].collection == c && ApprovedItem(items[i])) ==>
      ClearFlag(items, c, f)[i] == items[i]
  {
  }

  /** Revealing twice is revealing once. */
  lemma ClearFlagIdempotent(items: seq<CollectionItem>, c: CollectionId, f: ItemFlag)
    ensures ClearFlag(ClearFlag(items, c, f), c, f) == ClearFlag(items, c, f)
  {
  }

  lemma ClearFlagPrefix(items: seq<CollectionItem>, c: CollectionId, f: ItemFlag, n: nat)
    requires n <= |items|
    ensures ClearFlag(items, c, f)[..n] == ClearFlag(items[..n], c, f)
  {
  }

  /** Revealing changes no approval and so no collection's approved works or
      bookmarks: what is counted before a reveal is counted after it. */
  lemma {:induction false} ClearFlagKeepsApproved(items: seq<CollectionItem>, posted: set<WorkId>, c: CollectionId, f: ItemFlag, c': CollectionId, k: ContentKind)
    ensures ApprovedOf(ClearFlag(items, c, f), posted, c', k) == ApprovedOf(items, posted, c', k)
    decreases |items|
  {
    if items != [] {
      var n := |items| - 1;
      var r := ClearFlag(items, c, f);
      ClearFlagPrefix(items, c, f, n);
      assert r[..n] == ClearFlag(items[..n], c, f);
      ClearFlagKeepsApproved(items[..n], posted, c, f, c', k);
      assert Visible(r[n], posted, c', k) == Visible(items[n], posted, c', k);
      assert r[n].item == items[n].item;
    }
  }

  // ---------------------------------------------------------------------
  // Challenge clean-up
  // ---------------------------------------------------------------------

  /** The records of `table` that do not belong to collection `c`, in order. */
  function Without(table: seq<ChallengeRecord>, c: CollectionId): seq<ChallengeRecord> {
    if table == [] then []
    else
      var last := table[|table| - 1];
      Without(table[..|table| - 1], c) + (if last.collection == c then [] else [last])
  }

  /** After the clean-up no record of `c` remains, every other record
      remains, and a table with no record of `c` is left as it was. */
  lemma {:induction false} WithoutMeaning(table: seq<ChallengeRecord>, c: CollectionId)
    ensures forall x :: x in Without(table, c) <==> x in table && x.collection != c
    ensures (forall i :: 0 <= i < |table| ==> table[i].collection != c) ==> Without(table, c) == table
    ensures |Without(table, c)| <= |table|
    decreases |table|
  {
    if table != [] {
      var init := table[..|table| - 1];
      assert table == init + [table[|table| - 1]];
      WithoutMeaning(init, c);
    }
  }

  /** Destroys, one after another, the records of `table` that belong to `c`. */
  method DestroyRecordsOf(table: seq<ChallengeRecord>, c: CollectionId) returns (rest: seq<ChallengeRecord>)
    ensures rest == Without(table, c)
  {
    rest := [];
    var i := 0;
    while i < |table|
      invariant 0 <= i <= |table|
      invariant rest == Without(table[..i], c)
    {
      assert table[..i + 1] == table[..i] + [table[i]];
      if table[i].collection != c {
        rest := rest + [table[i]];
      }
      i := i + 1;
    }
    assert table[..i] == table;
  }

  // ---------------------------------------------------------------------
  // Orphaning
  // ---------------------------------------------------------------------

  /** The orphan account and its default pseud. */
  datatype OrphanAccount = OrphanAccount(user: UserId, defaultPseud: PseudId)

  /** The tables orphaning changes. */
  datatype OrphanState = OrphanState(participants: seq<Participant>, pseuds: seq<Pseud>)

  /** Pseud#change_membership: each record of pseud `p` in collection `c`
      is moved to pseud `q`, and the move is saved only when the uniqueness
      validation lets it (no other record already links `q` to `c`). */
  function ChangeMembership(parts: seq<Participant>, c: CollectionId, p: PseudId, q: PseudId): (r: seq<Participant>)
    ensures |r| == |parts|
  {
    seq(|parts|, i requires 0 <= i < |parts| =>
      if parts[i].collection == c && parts[i].pseud == p && !Taken(parts, c, q, Some(i))
      then parts[i].(pseud := q) else parts[i])
  }

  /** Changing memberships keeps every record's collection and role, leaves
      other collections alone and keeps memberships unique. */
  lemma ChangeMembershipSound(parts: seq<Participant>, c: CollectionId, p: PseudId, q: PseudId)
    requires UniqueMemberships(parts)
    ensures UniqueMemberships(ChangeMembership(parts, c, p, q))
    ensures forall i :: 0 <= i < |parts| ==>
      ChangeMembership(parts, c, p, q)[i].collection == parts[i].collection
      && ChangeMembership(parts, c, p, q)[i].role == parts[i].role
    ensures forall i :: 0 <= i < |parts| && parts[i].collection != c ==> ChangeMembership(parts, c, p, q)[i] == parts[i]
  {
    var r := ChangeMembership(parts, c, p, q);
    forall i, j | 0 <= i < |r| && 0 <= j < |r| && i != j && r[i].collection == r[j].collection
      ensures r[i].pseud != r[j].pseud
    {
      if r[i] != parts[i] && r[j] == parts[j] {
        assert !Taken(parts, c, q, Some(i));
      } else if r[i] == parts[i] && r[j] != parts[j] {
        assert !Taken(parts, c, q, Some(j));
      }
    }
  }

  /** When the orphan pseud `q` has no record in `c`, the owner `p` is
      replaced: afterwards no record links `p` to `c` and `q` owns `c`. */
  lemma ChangeMembershipMovesOwner(parts: seq<Participant>, c: CollectionId, p: PseudId, q: PseudId)
    requires UniqueMemberships(parts)
    requires p != q && p in PseudsWith(parts, c, Owners) && !Taken(parts, c, q, None)
    ensures p !in PseudsWith(ChangeMembership(parts, c, p, q), c, Participants)
    ensures q in PseudsWith(ChangeMembership(parts, c, p, q), c, Owners)
  {
    var r := ChangeMembership(parts, c, p, q);
    var i :| 0 <= i < |parts| && Links(parts[i], c, p, Owners);
    assert !Taken(parts, c, q, Some(i));
    assert Links(r[i], c, q, Owners);
    forall j | 0 <= j < |r| ensures !Links(r[j], c, p, Participants) {
      assert !Taken(parts, c, q, Some(j));
    }
  }

  /** The first pseud at or after `i` equal to `target`. */
  function FindPseudFrom(pseuds: seq<Pseud>, target: Pseud, i: nat): (r: Option<PseudId>)
    requires i <= |pseuds|
    ensures r.Some? ==> i <= r.value < |pseuds| && pseuds[r.value] == target
    ensures r.None? ==> target !in pseuds[i..]
    decreases |pseuds| - i
  {
    if i == |pseuds| then None
    else if pseuds[i] == target then Some(i)
    else FindPseudFrom(pseuds, target, i + 1)
  }

  /** find_or_create_by_name among the orphan account's pseuds. */
  function FindOrCreatePseud(pseuds: seq<Pseud>, user: UserId, name: string): (r: (seq<Pseud>, PseudId))
    ensures r.1 < |r.0| && r.0[r.1] == Pseud(user, name)
    ensures r.0 == pseuds || r.0 == pseuds + [Pseud(user, name)]
    ensures Pseud(user, name) in pseuds <==> r.0 == pseuds
  {
    match FindPseudFrom(pseuds, Pseud(user, name), 0)
    case Some(i) => (pseuds, i)
    case None =>
      assert pseuds[0..] == pseuds;
      (pseuds + [Pseud(user, name)], |pseuds|)
  }

  /** One pass of the loop body of Collection.orphan: if `p` is a pseud
      that owns collection `c` (ids outside the tables stand for nil), its
      membership goes to the orphan account's default pseud, or to the
      orphan account's pseud of the same name. */
  function OrphanStep(st: OrphanState, nCollections: nat, p: PseudId, c: CollectionId, useDefault: bool, account: OrphanAccount): OrphanState {
    if p < |st.pseuds| && c < nCollections && p in PseudsWith(st.participants, c, Owners) then
      var found := if useDefault then (st.pseuds, account.defaultPseud)
                   else FindOrCreatePseud(st.pseuds, account.user, st.pseuds[p].name);
      OrphanState(ChangeMembership(st.participants, c, p, found.1), found.0)
    else st
  }

  /** The inner loop: one pseud over the collections, in order. */
  function OrphanOver(st: OrphanState, nCollections: nat, p: PseudId, cs: seq<CollectionId>, useDefault: bool, account: OrphanAccount): OrphanState
    decreases |cs|
  {
    if cs == [] then st
    else OrphanOver(OrphanStep(st, nCollections, p, cs[0], useDefault, account), nCollections, p, cs[1..], useDefault, account)
  }

  /** Collection.orphan: every pseud, in order, over every collection. */
  function OrphanAll(st: OrphanState, nCollections: nat, ps: seq<PseudId>, cs: seq<CollectionId>, useDefault: bool, account: OrphanAccount): OrphanState
    decreases |ps|
  {
    if ps == [] then st
    else OrphanAll(OrphanOver(st, nCollections, ps[0], cs, useDefault, account), nCollections, ps[1..], cs, useDefault, account)
  }

  /** The orphaning tables are consistent: records name existing pseuds and
      collections, pseuds name existing users, memberships are unique. */
  ghost predicate Sound(st: OrphanState, nCollections: nat, nUsers: nat) {
    && (forall i :: 0 <= i < |st.participants| ==>
          st.participants[i].collection < nCollections && st.participants[i].pseud < |st.pseuds|)
    && (forall i :: 0 <= i < |st.pseuds| ==> st.pseuds[i].user < nUsers)
    && UniqueMemberships(st.participants)
  }

  /** `st'` keeps the records of `st` in place with their collections and
      roles, changes no record of a collection outside `cs`, and only adds pseuds. */
  ghost predicate Preserves(st: OrphanState, st': OrphanState, cs: seq<CollectionId>) {
    && |st'.participants| == |st.participants|
    && (forall i :: 0 <= i < |st.participants| ==>
          st'.participants[i].collection == st.participants[i].collection
          && st'.participants[i].role == st.participants[i].role)
    && (forall i :: 0 <= i < |st.participants| && st.participants[i].collection !in cs ==>
          st'.participants[i] == st.participants[i])
    && |st.pseuds| <= |st'.pseuds| && st'.pseuds[..|st.pseuds|] == st.pseuds
  }

  lemma OrphanStepSound(st: OrphanState, nCollections: nat, nUsers: nat, p: PseudId, c: CollectionId, useDefault: bool, account: OrphanAccount)
    requires Sound(st, nCollections, nUsers) && account.user < nUsers && account.defaultPseud < |st.pseuds|
    ensures Sound(OrphanStep(st, nCollections, p, c, useDefault, account), nCollections, nUsers)
    ensures Preserves(st, OrphanStep(st, nCollections, p, c, useDefault, account), [c])
  {
    var st' := OrphanStep(st, nCollections, p, c, useDefault, account);
    if p < |st.pseuds| && c < nCollections && p in PseudsWith(st.participants, c, Owners) {
      var found := if useDefault then (st.pseuds, account.defaultPseud)
                   else FindOrCreatePseud(st.pseuds, account.user, st.pseuds[p].name);
      ChangeMembershipSound(st.participants, c, p, found.1);
      assert found.0[..|st.pseuds|] == st.pseuds;
      forall i | 0 <= i < |st'.pseuds| ensures st'.pseuds[i].user < nUsers {
        if i < |st.pseuds| {
          assert st'.pseuds[i] == st.pseuds[i];
        }
      }
    } else {
      assert st'.pseuds[..|st.pseuds|] == st.pseuds;
    }
  }

  lemma PreservesTrans(a: OrphanState, b: OrphanState, c: OrphanState, cs: seq<CollectionId>, cs': seq<CollectionId>)
    requires Preserves(a, b, cs) && Preserves(b, c, cs')
    requires forall x :: x in cs ==> x in cs'
    ensures Preserves(a, c, cs')
  {
    assert c.pseuds[..|a.pseuds|] == c.pseuds[..|b.pseuds|][..|a.pseuds|];
  }

  lemma {:induction false} OrphanOverSound(st: OrphanState, nCollections: nat, nUsers: nat, p: PseudId, cs: seq<CollectionId>, useDefault: bool, account: OrphanAccount)
    requires Sound(st, nCollections, nUsers) && account.user < nUsers && account.defaultPseud < |st.pseuds|
    ensures Sound(OrphanOver(st, nCollections, p, cs, useDefault, account), nCollections, nUsers)
    ensures Preserves(st, OrphanOver(st, nCollections, p, cs, useDefault, account), cs)
    decreases |cs|
  {
    if cs == [] {
      assert st.pseuds[..|st.pseuds|] == st.pseuds;
    } else {
      var st1 := OrphanStep(st, nCollections, p, cs[0], useDefault, account);
      OrphanStepSound(st, nCollections, nUsers, p, cs[0], useDefault, account);
      OrphanOverSound(st1, nCollections, nUsers, p, cs[1..], useDefault, account);
      PreservesTrans(st, st1, OrphanOver(st1, nCollections, p, cs[1..], useDefault, account), [cs[0]], cs[1..] + [cs[0]]);
      assert forall x :: x in cs[1..] + [cs[0]] <==> x in cs by {
        assert cs == [cs[0]] + cs[1..];
      }
    }
  }

  /** Orphaning keeps the tables consistent and memberships unique, keeps
      every record's collection and role, changes the pseud of records in the
      listed collections only, and never removes a pseud. */
  lemma {:induction false} OrphanAllSound(st: OrphanState, nCollections: nat, nUsers: nat, ps: seq<PseudId>, cs: seq<CollectionId>, useDefault: bool, account: OrphanAccount)
    requires Sound(st, nCollections, nUsers) && account.user < nUsers && account.defaultPseud < |st.pseuds|
    ensures Sound(OrphanAll(st, nCollections, ps, cs, useDefault, account), nCollections, nUsers)
    ensures Preserves(st, OrphanAll(st, nCollections, ps, cs, useDefault, account), cs)
    decreases |ps|
  {
    if ps == [] {
      assert st.pseuds[..|st.pseuds|] == st.pseuds;
    } else {
      var st1 := OrphanOver(st, nCollections, ps[0], cs, useDefault, account);
      OrphanOverSound(st, nCollections, nUsers, ps[0], cs, useDefault, account);
      OrphanAllSound(st1, nCollections, nUsers, ps[1..], cs, useDefault, account);
      PreservesTrans(st, st1, OrphanAll(st1, nCollections, ps[1..], cs, useDefault, account), cs, cs);
    }
  }

  // ---------------------------------------------------------------------
  // Orphaning to the default pseud
  // ---------------------------------------------------------------------

  /** Some record links pseud `x` to collection `c` with a role in `s`. */
  ghost predicate HasLink(parts: seq<Participant>, c: CollectionId, x: PseudId, s: RoleSet) {
    exists i :: 0 <= i < |parts| && Links(parts[i], c, x, s)
  }

  /** `b` is `a` with some records handed to pseud `q` and nothing else changed. */
  ghost predicate MovedTo(a: seq<Participant>, b: seq<Participant>, q: PseudId) {
    |b| == |a| && forall j :: 0 <= j < |a| ==> b[j] == a[j] || b[j] == a[j].(pseud := q)
  }

  /** Every record of `q` in a listed collection makes `q` an owner. */
  ghost predicate DefaultOnlyOwns(parts: seq<Participant>, q: PseudId, cs: seq<CollectionId>) {
    forall j :: 0 <= j < |parts| && parts[j].pseud == q && parts[j].collection in cs ==> parts[j].role == Owner
  }

  lemma MovedToTrans(a: seq<Participant>, b: seq<Participant>, c: seq<Participant>, q: PseudId)
    requires MovedTo(a, b, q) && MovedTo(b, c, q)
    ensures MovedTo(a, c, q)
  {
  }

  /** Handing records to `q` never takes a link away from `q`. */
  lemma MovedToKeepsDefault(a: seq<Participant>, b: seq<Participant>, q: PseudId, c: CollectionId, s: RoleSet)
    requires MovedTo(a, b, q) && HasLink(a, c, q, s)
    ensures HasLink(b, c, q, s)
  {
    var i :| 0 <= i < |a| && Links(a[i], c, q, s);
    assert Links(b[i], c, q, s);
  }

  /** Handing records to `q` never gives a link to another pseud. */
  lemma MovedToAddsNoOther(a: seq<Participant>, b: seq<Participant>, q: PseudId, x: PseudId, c: CollectionId, s: RoleSet)
    requires MovedTo(a, b, q) && x != q && !HasLink(a, c, x, s)
    ensures !HasLink(b, c, x, s)
  {
    forall j | 0 <= j < |b| ensures !Links(b[j], c, x, s) {
      assert !Links(a[j], c, x, s);
    }
  }

  /** A step towards the default pseud hands records to it, changes no
      record outside collection `c`, keeps the pseuds table, and keeps
      the default pseud's records in listed collections owner records. */
  lemma DefaultStep(st: OrphanState, n: nat, nUsers: nat, p: PseudId, c: CollectionId, cs: seq<CollectionId>, account: OrphanAccount)
    requires Sound(st, n, nUsers) && c in cs
    requires DefaultOnlyOwns(st.participants, account.defaultPseud, cs)
    ensures var st' := OrphanStep(st, n, p, c, true, account);
      && st'.pseuds == st.pseuds
      && MovedTo(st.participants, st'.participants, account.defaultPseud)
      && (forall j :: 0 <= j < |st.participants| && st.participants[j].collection != c ==>
            st'.participants[j] == st.participants[j])
      && DefaultOnlyOwns(st'.participants, account.defaultPseud, cs)
  {
    var q := account.defaultPseud;
    var parts := st.participants;
    var r := OrphanStep(st, n, p, c, true, account).participants;
    if p < |st.pseuds| && c < n && p in PseudsWith(parts, c, Owners) {
      var i :| 0 <= i < |parts| && Links(parts[i], c, p, Owners);
      forall j | 0 <= j < |r| && r[j].pseud == q && r[j].collection in cs ensures r[j].role == Owner {
        if r[j] != parts[j] {
          assert parts[j].collection == c && parts[j].pseud == p;
          assert j == i;
        }
      }
    }
  }

  lemma {:induction false} DefaultOver(st: OrphanState, n: nat, nUsers: nat, p: PseudId, xs: seq<CollectionId>, cs: seq<CollectionId>, account: OrphanAccount)
    requires Sound(st, n, nUsers) && account.user < nUsers && account.defaultPseud < |st.pseuds|
    requires forall x :: x in xs ==> x in cs
    requires DefaultOnlyOwns(st.participants, account.defaultPseud, cs)
    ensures var st' := OrphanOver(st, n, p, xs, true, account);
      && Sound(st', n, nUsers) && st'.pseuds == st.pseuds
      && MovedTo(st.participants, st'.participants, account.defaultPseud)
      && DefaultOnlyOwns(st'.participants, account.defaultPseud, cs)
    decreases |xs|
  {
    if xs != [] {
      var st1 := OrphanStep(st, n, p, xs[0], true, account);
      DefaultStep(st, n, nUsers, p, xs[0], cs, account);
      OrphanStepSound(st, n, nUsers, p, xs[0], true, account);
      DefaultOver(st1, n, nUsers, p, xs[1..], cs, account);
      MovedToTrans(st.participants, st1.participants, OrphanOver(st1, n, p, xs[1..], true, account).participants, account.defaultPseud);
    }
  }

  lemma {:induction false} DefaultAll(st: OrphanState, n: nat, nUsers: nat, ps: seq<PseudId>, cs: seq<CollectionId>, account: OrphanAccount)
    requires Sound(st, n, nUsers) && account.user < nUsers && account.defaultPseud < |st.pseuds|
    requires DefaultOnlyOwns(st.participants, account.defaultPseud, cs)
    ensures var st' := OrphanAll(st, n, ps, cs, true, account);
      && Sound(st', n, nUsers) && st'.pseuds == st.pseuds
      && MovedTo(st.participants, st'.participants, account.defaultPseud)
      && DefaultOnlyOwns(st'.participants, account.defaultPseud, cs)
    decreases |ps|
  {
    if ps != [] {
      var st1 := OrphanOver(st, n, ps[0], cs, true, account);
      DefaultOver(st, n, nUsers, ps[0], cs, cs, account);
      DefaultAll(st1, n, nUsers, ps[1..], cs, account);
      MovedToTrans(st.participants, st1.participants, OrphanAll(st1, n, ps[1..], cs, true, account).participants, account.defaultPseud);
    }
  }

  /** The step for an owner `p` of `c` leaves the default pseud owning `c`. */
  lemma DefaultStepOwns(st: OrphanState, n: nat, nUsers: nat, p: PseudId, c: CollectionId, cs: seq<CollectionId>, account: OrphanAccount)
    requires Sound(st, n, nUsers) && c in cs
    requires DefaultOnlyOwns(st.participants, account.defaultPseud, cs)
    requires HasLink(st.participants, c, p, Owners)
    ensures HasLink(OrphanStep(st, n, p, c, true, account).participants, c, account.defaultPseud, Owners)
  {
    var q := account.defaultPseud;
    var parts := st.participants;
    var r := OrphanStep(st, n, p, c, true, account).participants;
    DefaultStep(st, n, nUsers, p, c, cs, account);
    var i :| 0 <= i < |parts| && Links(parts[i], c, p, Owners);
    assert p in PseudsWith(parts, c, Owners);
    if HasLink(parts, c, q, Participants) {
      var k :| 0 <= k < |parts| && Links(parts[k], c, q, Participants);
      assert Links(parts[k], c, q, Owners);
      MovedToKeepsDefault(parts, r, q, c, Owners);
    } else if p == q {
      MovedToKeepsDefault(parts, r, q, c, Owners);
    } else {
      assert !Taken(parts, c, q, None) by {
        forall j | 0 <= j < |parts| ensures !(parts[j].collection == c && parts[j].pseud == q) {
          assert !Links(parts[j], c, q, Participants);
        }
      }
      ChangeMembershipMovesOwner(parts, c, p, q);
      var y :| 0 <= y < |r| && Links(r[y], c, q, Owners);
    }
  }

  lemma {:induction false} DefaultOverOwns(st: OrphanState, n: nat, nUsers: nat, p: PseudId, xs: seq<CollectionId>, cs: seq<CollectionId>, c: CollectionId, account: OrphanAccount)
    requires Sound(st, n, nUsers) && account.user < nUsers && account.defaultPseud < |st.pseuds|
    requires forall x :: x in xs ==> x in cs
    requires DefaultOnlyOwns(st.participants, account.defaultPseud, cs)
    requires c in xs && HasLink(st.participants, c, p, Owners)
    ensures HasLink(OrphanOver(st, n, p, xs, true, account).participants, c, account.defaultPseud, Owners)
    decreases |xs|
  {
    var q := account.defaultPseud;
    var st1 := OrphanStep(st, n, p, xs[0], true, account);
    var end := OrphanOver(st1, n, p, xs[1..], true, account);
    DefaultStep(st, n, nUsers, p, xs[0], cs, account);
    OrphanStepSound(st, n, nUsers, p, xs[0], true, account);
    DefaultOver(st1, n, nUsers, p, xs[1..], cs, account);
    if xs[0] == c {
      DefaultStepOwns(st, n, nUsers, p, c, cs, account);
      MovedToKeepsDefault(st1.participants, end.participants, q, c, Owners);
    } else {
      var i :| 0 <= i < |st.participants| && Links(st.participants[i], c, p, Owners);
      assert Links(st1.participants[i], c, p, Owners);
      DefaultOverOwns(st1, n, nUsers, p, xs[1..], cs, c, account);
    }
  }

  /** Orphaning to the default pseud, when that pseud's records in the
      listed collections are owner records (as when it has none there),
      leaves it owning every listed collection that a listed pseud owned. */
  lemma {:induction false} OrphanAllDefaultOwns(st: OrphanState, n: nat, nUsers: nat, ps: seq<PseudId>, cs: seq<CollectionId>, p: PseudId, c: CollectionId, account: OrphanAccount)
    requires Sound(st, n, nUsers) && account.user < nUsers && account.defaultPseud < |st.pseuds|
    requires DefaultOnlyOwns(st.participants, account.defaultPseud, cs)
    requires p in ps && c in cs && HasLink(st.participants, c, p, Owners)
    ensures HasLink(OrphanAll(st, n, ps, cs, true, account).participants, c, account.defaultPseud, Owners)
    decreases |ps|
  {
    var q := account.defaultPseud;
    var st1 := OrphanOver(st, n, ps[0], cs, true, account);
    var end := OrphanAll(st1, n, ps[1..], cs, true, account);
    DefaultOver(st, n, nUsers, ps[0], cs, cs, account);
    DefaultAll(st1, n, nUsers, ps[1..], cs, account);
    if ps[0] == p {
      DefaultOverOwns(st, n, nUsers, p, cs, cs, c, account);
      MovedToKeepsDefault(st1.participants, end.participants, q, c, Owners);
    } else {
      var i :| 0 <= i < |st.participants| && Links(st.participants[i], c, p, Owners);
      if st1.participants[i] == st.participants[i] {
        assert Links(st1.participants[i], c, p, Owners);
        OrphanAllDefaultOwns(st1, n, nUsers, ps[1..], cs, p, c, account);
      } else {
        assert Links(st1.participants[i], c, q, Owners);
        MovedToKeepsDefault(st1.participants, end.participants, q, c, Owners);
      }
    }
  }

  /** While `p` still owns `c`, the default pseud has no record there and
      no other listed pseud owns it; or `p` no longer has a record in `c`. */
  ghost predicate PendingOrGone(parts: seq<Participant>, c: CollectionId, p: PseudId, q: PseudId, ps: seq<PseudId>) {
    (HasLink(parts, c, p, Owners) && !HasLink(parts, c, q, Participants)
      && forall y :: y in ps && y != p ==> !HasLink(parts, c, y, Owners))
    || !HasLink(parts, c, p, Participants)
  }

  lemma GoneStep(st: OrphanState, n: nat, nUsers: nat, y: PseudId, x: CollectionId, cs: seq<CollectionId>, c: CollectionId, p: PseudId, ps: seq<PseudId>, account: OrphanAccount)
    requires Sound(st, n, nUsers) && x in cs && y in ps && p != account.defaultPseud
    requires DefaultOnlyOwns(st.participants, account.defaultPseud, cs)
    requires PendingOrGone(st.participants, c, p, account.defaultPseud, ps)
    ensures var r := OrphanStep(st, n, y, x, true, account).participants;
      && PendingOrGone(r, c, p, account.defaultPseud, ps)
      && (!HasLink(st.participants, c, p, Participants) ==> !HasLink(r, c, p, Participants))
      && (y == p && x == c ==> !HasLink(r, c, p, Participants))
  {
    var q := account.defaultPseud;
    var parts := st.participants;
    var r := OrphanStep(st, n, y, x, true, account).participants;
    DefaultStep(st, n, nUsers, y, x, cs, account);
    if !HasLink(parts, c, p, Participants) {
      MovedToAddsNoOther(parts, r, q, p, c, Participants);
    } else if x != c {
      forall z, s | HasLink(r, c, z, s) ensures HasLink(parts, c, z, s) {
        var j :| 0 <= j < |r| && Links(r[j], c, z, s);
        assert r[j] == parts[j];
      }
      forall z, s | HasLink(parts, c, z, s) ensures HasLink(r, c, z, s) {
        var j :| 0 <= j < |parts| && Links(parts[j], c, z, s);
        assert r[j] == parts[j];
      }
    } else if y != p {
      assert !HasLink(parts, c, y, Owners);
      assert y !in PseudsWith(parts, c, Owners);
    } else {
      assert !Taken(parts, c, q, None) by {
        forall j | 0 <= j < |parts| ensures !(parts[j].collection == c && parts[j].pseud == q) {
          assert !Links(parts[j], c, q, Participants);
        }
      }
      var i :| 0 <= i < |parts| && Links(parts[i], c, p, Owners);
      assert p in PseudsWith(parts, c, Owners);
      ChangeMembershipMovesOwner(parts, c, p, q);
    }
  }

  lemma {:induction false} GoneOver(st: OrphanState, n: nat, nUsers: nat, y: PseudId, xs: seq<CollectionId>, cs: seq<CollectionId>, c: CollectionId, p: PseudId, ps: seq<PseudId>, account: OrphanAccount)
    requires Sound(st, n, nUsers) && account.user < nUsers && account.defaultPseud < |st.pseuds|
    requires (forall x :: x in xs ==> x in cs) && y in ps && p != account.defaultPseud
    requires DefaultOnlyOwns(st.participants, account.defaultPseud, cs)
    requires PendingOrGone(st.participants, c, p, account.defaultPseud, ps)
    ensures var r := OrphanOver(st, n, y, xs, true, account).participants;
      && PendingOrGone(r, c, p, account.defaultPseud, ps)
      && (!HasLink(st.participants, c, p, Participants) ==> !HasLink(r, c, p, Participants))
      && (y == p && c in xs ==> !HasLink(r, c, p, Participants))
    decreases |xs|
  {
    if xs != [] {
      var st1 := OrphanStep(st, n, y, xs[0], true, account);
      GoneStep(st, n, nUsers, y, xs[0], cs, c, p, ps, account);
      DefaultStep(st, n, nUsers, y, xs[0], cs, account);
      OrphanStepSound(st, n, nUsers, y, xs[0], true, account);
      GoneOver(st1, n, nUsers, y, xs[1..], cs, c, p, ps, account);
      assert c in xs && xs[0] != c ==> c in xs[1..];
    }
  }

  lemma {:induction false} GoneAll(st: OrphanState, n: nat, nUsers: nat, ys: seq<PseudId>, cs: seq<CollectionId>, c: CollectionId, p: PseudId, ps: seq<PseudId>, account: OrphanAccount)
    requires Sound(st, n, nUsers) && account.user < nUsers && account.defaultPseud < |st.pseuds|
    requires (forall y :: y in ys ==> y in ps) && p != account.defaultPseud && c in cs
    requires DefaultOnlyOwns(st.participants, account.defaultPseud, cs)
    requires PendingOrGone(st.participants, c, p, account.defaultPseud, ps)
    ensures var r := OrphanAll(st, n, ys, cs, true, account).participants;
      && PendingOrGone(r, c, p, account.defaultPseud, ps)
      && (!HasLink(st.participants, c, p, Participants) ==> !HasLink(r, c, p, Participants))
      && (p in ys ==> !HasLink(r, c, p, Participants))
    decreases |ys|
  {
    if ys != [] {
      var st1 := OrphanOver(st, n, ys[0], cs, true, account);
      GoneOver(st, n, nUsers, ys[0], cs, cs, c, p, ps, account);
      DefaultOver(st, n, nUsers, ys[0], cs, cs, account);
      GoneAll(st1, n, nUsers, ys[1..], cs, c, p, ps, account);
      assert p in ys && ys[0] != p ==> p in ys[1..];
    }
  }

  /** Collection.orphan to the default pseud, which has no record in any
      listed collection: the default pseud ends up owning every listed
      collection some listed pseud owned, and a listed owner that shared
      its collection with no other listed owner is left with no record
      there. A second listed owner of the same collection keeps its record,
      since its move would duplicate the default pseud's membership. */
  lemma OrphanToDefault(st: OrphanState, n: nat, nUsers: nat, ps: seq<PseudId>, cs: seq<CollectionId>, p: PseudId, c: CollectionId, account: OrphanAccount)
    requires Sound(st, n, nUsers) && account.user < nUsers && account.defaultPseud < |st.pseuds|
    requires forall j :: 0 <= j < |st.participants| && st.participants[j].pseud == account.defaultPseud
               ==> st.participants[j].collection !in cs
    requires p in ps && c in cs && HasLink(st.participants, c, p, Owners)
    ensures HasLink(OrphanAll(st, n, ps, cs, true, account).participants, c, account.defaultPseud, Owners)
    ensures p != account.defaultPseud && (forall y :: y in ps && y != p ==> !HasLink(st.participants, c, y, Owners))
      ==> !HasLink(OrphanAll(st, n, ps, cs, true, account).participants, c, p, Participants)
  {
    var q := account.defaultPseud;
    OrphanAllDefaultOwns(st, n, nUsers, ps, cs, p, c, account);
    if p != q && (forall y :: y in ps && y != p ==> !HasLink(st.participants, c, y, Owners)) {
      GoneAll(st, n, nUsers, ps, cs, c, p, ps, account);
    }
  }

  // ---------------------------------------------------------------------
  // The store
  // ---------------------------------------------------------------------

  /** Replacing a collection row keeps every foreign key valid. */
  lemma ReplaceRowWellFormed(db: Db, c: CollectionId, updated: Collection)
    requires WellFormed(db) && c < |db.collections|
    ensures WellFormed(db.(collections := db.collections[c := updated]))
  {
  }

  /** The participant records nested in a new collection's attributes, as
      they will be stored for collection `c`. */
  function NestedRecords(c: CollectionId, nested: seq<(PseudId, Role)>): (r: seq<Participant>)
    ensures |r| == |nested|
    ensures forall i :: 0 <= i < |r| ==> r[i] == Participant(c, nested[i].0, nested[i].1)
  {
    seq(|nested|, i requires 0 <= i < |nested| => Participant(c, nested[i].0, nested[i].1))
  }

  /** The records of a collection are those of its parts, in order. */
  lemma {:induction false} RecordsOfAppend(a: seq<Participant>, b: seq<Participant>, c: CollectionId)
    ensures RecordsOf(a + b, c) == RecordsOf(a, c) + RecordsOf(b, c)
    decreases |b|
  {
    if b != [] {
      var init := b[..|b| - 1];
      assert (a + b)[..|a + b| - 1] == a + init;
      assert (a + b)[|a + b| - 1] == b[|b| - 1];
      RecordsOfAppend(a, init, c);
    } else {
      assert a + b == a;
    }
  }

  /** Records that all name `c` are all kept by RecordsOf. */
  lemma {:induction false} RecordsOfAll(ps: seq<Participant>, c: CollectionId)
    requires forall i :: 0 <= i < |ps| ==> ps[i].collection == c
    ensures RecordsOf(ps, c) == ps
    decreases |ps|
  {
    if ps != [] {
      var init := ps[..|ps| - 1];
      RecordsOfAll(init, c);
      assert RecordsOf(ps, c) == RecordsOf(init, c) + [ps[|ps| - 1]];
      assert init + [ps[|ps| - 1]] == ps;
    }
  }

  /** Records none of which names `c` give `c` no record. */
  lemma {:induction false} RecordsOfNone(ps: seq<Participant>, c: CollectionId)
    requires forall i :: 0 <= i < |ps| ==> ps[i].collection != c
    ensures RecordsOf(ps, c) == []
    decreases |ps|
  {
    if ps != [] {
      var init := ps[..|ps| - 1];
      RecordsOfNone(init, c);
      assert RecordsOf(ps, c) == RecordsOf(init, c);
    }
  }

  /** After a create, the stored records of the new collection are exactly
      its nested records, in order: the tables hold no earlier record
      naming the new id. */
  lemma CreatedRecords(db: Db, nested: seq<(PseudId, Role)>)
    requires WellFormed(db)
    ensures var c := |db.collections|;
      RecordsOf(db.participants + NestedRecords(c, nested), c) == NestedRecords(c, nested)
  {
    var c := |db.collections|;
    RecordsOfAppend(db.participants, NestedRecords(c, nested), c);
    RecordsOfNone(db.participants, c);
    RecordsOfAll(NestedRecords(c, nested), c);
  }

  /** Appending a row and records of the new id keeps the owner check of
      those records passing: a parent's records are unchanged, and a parent
      id that now names the new row itself only adds candidates. */
  lemma OwnerCheckAfterAppend(db: Db, row: Collection, own: seq<Participant>)
    requires forall i :: 0 <= i < |own| ==> own[i].collection == |db.collections|
    requires MustHaveOwners(db, ParentOf(db, row), own) == []
    ensures var db' := db.(collections := db.collections + [Reloaded(row)], participants := db.participants + own);
      MustHaveOwners(db', ParentOf(db', Reloaded(row)), own) == []
  {
    var db' := db.(collections := db.collections + [Reloaded(row)], participants := db.participants + own);
    var before := match ParentOf(db, row) case Some(p) => RecordsOf(db.participants, p) case None => [];
    var after := match ParentOf(db', Reloaded(row)) case Some(p) => RecordsOf(db'.participants, p) case None => [];
    HasOwnerConcat(own, before);
    HasOwnerConcat(own, after);
    if ParentOf(db, row).Some? {
      var p := ParentOf(db, row).value;
      RecordsOfAppend(db.participants, own, p);
      RecordsOfNone(own, p);
      assert after == before;
    }
  }

  /** A collection created past its owner check has an owner through
      all_owners once it is stored, so its stored row passes that check
      again. */
  lemma CreatedCollectionHasOwner(db: Db, row: Collection, nested: seq<(PseudId, Role)>)
    requires WellFormed(db)
    requires MustHaveOwners(db, ParentOf(db, row), NestedRecords(|db.collections|, nested)) == []
    ensures var c := |db.collections|;
      var db' := db.(collections := db.collections + [Reloaded(row)], participants := db.participants + NestedRecords(c, nested));
      All(db', c, Owners) != []
  {
    var c := |db.collections|;
    var own := NestedRecords(c, nested);
    var db' := db.(collections := db.collections + [Reloaded(row)], participants := db.participants + own);
    CreatedRecords(db, nested);
    OwnerCheckAfterAppend(db, row, own);
    assert Parent(db', c) == ParentOf(db', Reloaded(row));
    StoredOwnersMeaning(db', c);
  }

  /** Appending a new collection row with its nested records, which name
      existing and distinct pseuds, keeps foreign keys valid and memberships unique. */
  lemma AppendCollectionSound(db: Db, row: Collection, nested: seq<(PseudId, Role)>)
    requires WellFormed(db) && UniqueMemberships(db.participants)
    requires forall i :: 0 <= i < |nested| ==> nested[i].0 < |db.pseuds|
    requires forall i, j :: 0 <= i < j < |nested| ==> nested[i].0 != nested[j].0
    ensures var c := |db.collections|;
      var db' := db.(collections := db.collections + [row], participants := db.participants + NestedRecords(c, nested));
      WellFormed(db') && UniqueMemberships(db'.participants)
  {
    var c := |db.collections|;
    var own := NestedRecords(c, nested);
    var parts := db.participants + own;
    forall i, j | 0 <= i < |parts| && 0 <= j < |parts| && i != j && parts[i].collection == parts[j].collection
      ensures parts[i].pseud != parts[j].pseud
    {
      if i < |db.participants| && j < |db.participants| {
        assert parts[i] == db.participants[i] && parts[j] == db.participants[j];
      } else if i >= |db.participants| && j >= |db.participants| {
        assert parts[i] == own[i - |db.participants|] && parts[j] == own[j - |db.participants|];
        if i < j {
          assert nested[i - |db.participants|].0 != nested[j - |db.participants|].0;
        } else {
          assert nested[j - |db.participants|].0 != nested[i - |db.participants|].0;
        }
      }
    }
  }

  /** The consistency the store keeps, seen on the orphaning tables. */
  lemma ValidIsSound(db: Db)
    ensures WellFormed(db) && UniqueMemberships(db.participants) <==>
      Sound(OrphanState(db.participants, db.pseuds), |db.collections|, |db.users|)
      && forall i :: 0 <= i < |db.items| ==> db.items[i].collection < |db.collections|
  {
  }

  class Store {
    var collections: seq<Collection>
    var participants: seq<Participant>
    var items: seq<CollectionItem>
    var pseuds: seq<Pseud>
    var users: seq<User>
    var postedWorks: set<WorkId>
    var assignments: seq<ChallengeRecord>
    var potentialMatches: seq<ChallengeRecord>
    var signups: seq<ChallengeRecord>
    var prompts: seq<ChallengeRecord>
    var claims: seq<ChallengeRecord>
    var jobs: seq<Job>

    /** The tables the collection rules read. */
    function Snapshot(): Db
      reads this`collections, this`participants, this`items, this`pseuds, this`users, this`postedWorks
    {
      Db(collections, participants, items, pseuds, users, postedWorks)
    }

    /** Foreign keys hold and no pseud is a participant of a collection twice. */
    ghost predicate Valid()
      reads this`collections, this`participants, this`items, this`pseuds, this`users, this`postedWorks
    {
      WellFormed(Snapshot()) && UniqueMemberships(participants)
    }

    constructor ()
      ensures Valid()
      ensures collections == [] && participants == [] && items == [] && pseuds == [] && users == []
      ensures assignments == [] && potentialMatches == [] && signups == [] && prompts == [] && claims == []
      ensures jobs == [] && postedWorks == {}
    {
      collections, participants, items, pseuds, users := [], [], [], [], [];
      postedWorks := {};
      assignments, potentialMatches, signups, prompts, claims := [], [], [], [], [];
      jobs := [];
    }

    /** Writes row `c` of the collections table. */
    method WriteRow(c: CollectionId, updated: Collection)
      requires Valid() && c < |collections|
      modifies this`collections
      ensures Valid()
      ensures collections == old(collections)[c := updated]
    {
      ReplaceRowWellFormed(Snapshot(), c, updated);
      collections := collections[c := updated];
    }

    /** clean_up_challenge, run after every save: without a challenge, the
        collection's assignments, potential matches, signups and prompts are
        destroyed; claims are kept. */
    method CleanUpChallenge(c: CollectionId)
      requires Valid() && c < |collections|
      modifies this`assignments, this`potentialMatches, this`signups, this`prompts
      ensures Valid()
      ensures collections[c].challenge.None? ==>
        && assignments == Without(old(assignments), c)
        && potentialMatches == Without(old(potentialMatches), c)
        && signups == Without(old(signups), c)
        && prompts == Without(old(prompts), c)
      ensures collections[c].challenge.Some? ==>
        assignments == old(assignments) && potentialMatches == old(potentialMatches)
        && signups == old(signups) && prompts == old(prompts)
    {
      if collections[c].challenge.None? {
        assignments := DestroyRecordsOf(assignments, c);
        potentialMatches := DestroyRecordsOf(potentialMatches, c);
        signups := DestroyRecordsOf(signups, c);
        prompts := DestroyRecordsOf(prompts, c);
      }
    }

    /** The write half of a save: when the validations passed, row `c`
        becomes the columns of `updated` and the challenge clean-up runs;
        otherwise nothing changes. */
    method StoreIfValid(c: CollectionId, updated: Collection, valid: bool)
      requires Valid() && c < |collections|
      modifies this`collections, this`assignments, this`potentialMatches, this`signups, this`prompts
      ensures Valid()
      ensures !valid ==>
        collections == old(collections) && assignments == old(assignments) && potentialMatches == old(potentialMatches)
        && signups == old(signups) && prompts == old(prompts)
      ensures valid ==> collections == old(collections)[c := Reloaded(updated)]
      ensures valid && updated.challenge.None? ==>
        && assignments == Without(old(assignments), c)
        && potentialMatches == Without(old(potentialMatches), c)
        && signups == Without(old(signups), c)
        && prompts == Without(old(prompts), c)
      ensures valid && updated.challenge.Some? ==>
        assignments == old(assignments) && potentialMatches == old(potentialMatches)
        && signups == old(signups) && prompts == old(prompts)
    {
      if valid {
        WriteRow(c, Reloaded(updated));
        CleanUpChallenge(c);
      }
    }

    /** Saving stored collection `c` as `updated`: the validations run on
        the row held in memory, with its stored participant records, against
        the stored tables; only a valid row is written, without its
        parent_name= attribute, and then the challenge clean-up runs. */
    method SaveCollection(cfg: Config, c: CollectionId, updated: Collection, actor: Option<UserId>) returns (errs: seq<CollectionError>)
      requires Valid() && c < |collections|
      modifies this`collections, this`assignments, this`potentialMatches, this`signups, this`prompts
      ensures Valid()
      ensures errs == CollectionErrors(cfg, old(Snapshot()), c, updated, RecordsOf(old(participants), c), actor)
      ensures errs != [] ==>
        collections == old(collections) && assignments == old(assignments) && potentialMatches == old(potentialMatches)
        && signups == old(signups) && prompts == old(prompts)
      ensures errs == [] ==> collections == old(collections)[c := Reloaded(updated)]
      ensures errs == [] && updated.challenge.None? ==>
        && assignments == Without(old(assignments), c)
        && potentialMatches == Without(old(potentialMatches), c)
        && signups == Without(old(signups), c)
        && prompts == Without(old(prompts), c)
      ensures errs == [] && updated.challenge.Some? ==>
        assignments == old(assignments) && potentialMatches == old(potentialMatches)
        && signups == old(signups) && prompts == old(prompts)
    {
      errs := CollectionErrors(cfg, Snapshot(), c, updated, RecordsOf(participants, c), actor);
      StoreIfValid(c, updated, errs == []);
    }

    /** Creating a collection from its attributes `row` and its nested
        participant records `nested` (pseud and role): the validations run
        on the new row with the nested records as its own, against the
        stored tables (so a parent id naming no stored row is no parent);
        a valid row is appended with the next id, without its parent_name=
        attribute, its records are stored after it, and the challenge
        clean-up runs; the new collection's stored records are then exactly
        the nested ones. The nested records pass their own validations,
        since no stored record names the new id and their roles are typed. */
    method CreateCollection(cfg: Config, row: Collection, nested: seq<(PseudId, Role)>, actor: Option<UserId>)
      returns (errs: seq<CollectionError>)
      requires Valid()
      requires forall i :: 0 <= i < |nested| ==> nested[i].0 < |pseuds|
      requires forall i, j :: 0 <= i < j < |nested| ==> nested[i].0 != nested[j].0
      modifies this`collections, this`participants, this`assignments, this`potentialMatches, this`signups, this`prompts
      ensures Valid()
      ensures errs == CollectionErrors(cfg, old(Snapshot()), |old(collections)|, row,
                                       NestedRecords(|old(collections)|, nested), actor)
      ensures errs != [] ==>
        collections == old(collections) && participants == old(participants)
        && assignments == old(assignments) && potentialMatches == old(potentialMatches)
        && signups == old(signups) && prompts == old(prompts)
      ensures errs == [] ==>
        && collections == old(collections) + [Reloaded(row)]
        && participants == old(participants) + NestedRecords(|old(collections)|, nested)
        && RecordsOf(participants, |old(collections)|) == NestedRecords(|old(collections)|, nested)
      ensures errs == [] && row.challenge.None? ==>
        && assignments == Without(old(assignments), |old(collections)|)
        && potentialMatches == Without(old(potentialMatches), |old(collections)|)
        && signups == Without(old(signups), |old(collections)|)
        && prompts == Without(old(prompts), |old(collections)|)
      ensures errs == [] && row.challenge.Some? ==>
        assignments == old(assignments) && potentialMatches == old(potentialMatches)
        && signups == old(signups) && prompts == old(prompts)
    {
      var c := |collections|;
      var own := NestedRecords(c, nested);
      errs := CollectionErrors(cfg, Snapshot(), c, row, own, actor);
      if errs == [] {
        AppendCollectionSound(Snapshot(), Reloaded(row), nested);
        CreatedRecords(Snapshot(), nested);
        collections, participants := collections + [Reloaded(row)], participants + own;
        CleanUpChallenge(c);
      }
    }

    /** Stores a new user (the users table is written outside this model). */
    method AddUser(email: string) returns (u: UserId)
      requires Valid()
      modifies this`users
      ensures Valid()
      ensures u == |old(users)| && users == old(users) + [User(email)]
    {
      u := |users|;
      users := users + [User(email)];
    }

    /** Stores a new pseud of an existing user. */
    method AddPseud(user: UserId, name: string) returns (p: PseudId)
      requires Valid() && user < |users|
      modifies this`pseuds
      ensures Valid()
      ensures p == |old(pseuds)| && pseuds == old(pseuds) + [Pseud(user, name)]
    {
      p := |pseuds|;
      pseuds := pseuds + [Pseud(user, name)];
    }

    /** Stores a new collection item of an existing collection. */
    method AddItem(item: CollectionItem)
      requires Valid() && item.collection < |collections|
      modifies this`items
      ensures Valid()
      ensures items == old(items) + [item]
    {
      items := items + [item];
    }

    /** Stores a new row of a challenge-scoped table for an existing
        collection; only the chosen table grows. */
    method AddChallengeRecord(t: ChallengeTable, r: ChallengeRecord)
      requires Valid() && r.collection < |collections|
      modifies this`assignments, this`potentialMatches, this`signups, this`prompts, this`claims
      ensures Valid()
      ensures assignments == old(assignments) + (if t == Assignments then [r] else [])
      ensures potentialMatches == old(potentialMatches) + (if t == PotentialMatches then [r] else [])
      ensures signups == old(signups) + (if t == Signups then [r] else [])
      ensures prompts == old(prompts) + (if t == Prompts then [r] else [])
      ensures claims == old(claims) + (if t == Claims then [r] else [])
    {
      match t
      case Assignments => assignments := assignments + [r];
      case PotentialMatches => potentialMatches := potentialMatches + [r];
      case Signups => signups := signups + [r];
      case Prompts => prompts := prompts + [r];
      case Claims => claims := claims + [r];
    }

    /** Marks a work as posted. */
    method PostWork(w: WorkId)
      requires Valid()
      modifies this`postedWorks
      ensures Valid()
      ensures postedWorks == old(postedWorks) + {w}
    {
      postedWorks := postedWorks + {w};
    }

    /** reveal!: clears `unrevealed` on the approved items of `c` and queues
        the reveal notifications. */
    method Reveal(c: CollectionId)
      requires Valid()
      modifies this`items, this`jobs
      ensures Valid()
      ensures items == ClearFlag(old(items), c, Unrevealed)
      ensures jobs == old(jobs) + [SendRevealNotifications(c)]
    {
      items := ClearFlag(items, c, Unrevealed);
      jobs := jobs + [SendRevealNotifications(c)];
    }

    /** reveal_authors!: clears `anonymous` on the approved items of `c` and
        queues the author-reveal notifications. */
    method RevealAuthors(c: CollectionId)
      requires Valid()
      modifies this`items, this`jobs
      ensures Valid()
      ensures items == ClearFlag(old(items), c, Anonymous)
      ensures jobs == old(jobs) + [SendAuthorRevealNotifications(c)]
    {
      items := ClearFlag(items, c, Anonymous);
      jobs := jobs + [SendAuthorRevealNotifications(c)];
    }

    /** Saving a new participant record: it is stored only if it passes the
        uniqueness and role validations. */
    method CreateParticipant(c: CollectionId, p: PseudId, roleName: string) returns (errs: seq<ParticipantError>)
      requires Valid() && c < |collections| && p < |pseuds|
      modifies this`participants
      ensures Valid()
      ensures errs == SaveErrors(old(participants), c, p, roleName, None)
      ensures errs == [] ==> participants == old(participants) + [Participant(c, p, ParseRole(roleName).value)]
      ensures errs != [] ==> participants == old(participants)
    {
      errs := SaveErrors(participants, c, p, roleName, None);
      if errs == [] {
        var role := ParseRole(roleName).value;
        CreateKeepsUnique(participants, c, p, role);
        participants := participants + [Participant(c, p, role)];
      }
    }

    /** approve_membership!: the role becomes Member and the record is saved;
        the save always passes, and nothing else about the record changes. */
    method ApproveMembership(pid: nat) returns (errs: seq<ParticipantError>)
      requires Valid() && pid < |participants|
      modifies this`participants
      ensures Valid()
      ensures errs == []
      ensures participants == Approve(old(participants), pid)
    {
      var rec := participants[pid];
      errs := SaveErrors(participants, rec.collection, rec.pseud, RoleName(Member), Some(pid));
      StoredRecordSaves(participants, pid, Member);
      ApproveIdempotent(participants, pid);
      participants := participants[pid := rec.(role := Member)];
    }

    /** One step of Collection.orphan: pseud `p`'s ownership of `c`, if it
        has one, passes to the orphan account. */
    method OrphanOne(p: PseudId, c: CollectionId, useDefault: bool, account: OrphanAccount)
      requires Valid() && account.user < |users| && account.defaultPseud < |pseuds|
      modifies this`participants, this`pseuds
      ensures Valid() && account.defaultPseud < |pseuds|
      ensures OrphanState(participants, pseuds)
        == OrphanStep(OrphanState(old(participants), old(pseuds)), |collections|, p, c, useDefault, account)
    {
      ghost var next := OrphanStep(OrphanState(participants, pseuds), |collections|, p, c, useDefault, account);
      ValidIsSound(Snapshot());
      OrphanStepSound(OrphanState(participants, pseuds), |collections|, |users|, p, c, useDefault, account);
      if p < |pseuds| && c < |collections| && p in PseudsWith(participants, c, Owners) {
        var q := account.defaultPseud;
        if !useDefault {
          var found := FindOrCreatePseud(pseuds, account.user, pseuds[p].name);
          pseuds, q := found.0, found.1;
        }
        participants := ChangeMembership(participants, c, p, q);
      }
      assert OrphanState(participants, pseuds) == next;
      ValidIsSound(Snapshot());
    }

    /** The inner loop of Collection.orphan: pseud `p` over the collections. */
    method OrphanPseud(p: PseudId, cs: seq<CollectionId>, useDefault: bool, account: OrphanAccount)
      requires Valid() && account.user < |users| && account.defaultPseud < |pseuds|
      modifies this`participants, this`pseuds
      ensures Valid() && account.defaultPseud < |pseuds|
      ensures OrphanState(participants, pseuds)
        == OrphanOver(OrphanState(old(participants), old(pseuds)), |collections|, p, cs, useDefault, account)
    {
      var j := 0;
      while j < |cs|
        invariant 0 <= j <= |cs|
        invariant Valid() && account.defaultPseud < |pseuds|
        invariant OrphanOver(OrphanState(participants, pseuds), |collections|, p, cs[j..], useDefault, account)
          == OrphanOver(OrphanState(old(participants), old(pseuds)), |collections|, p, cs, useDefault, account)
      {
        assert cs[j..][1..] == cs[j + 1..];
        OrphanOne(p, cs[j], useDefault, account);
        j := j + 1;
      }
      assert cs[j..] == [];
    }

    /** Collection.orphan: for every listed pseud and every listed collection
        the pseud owns at its turn, the membership passes to the orphan
        account when the uniqueness validation lets the move be saved. */
    method Orphan(ps: seq<PseudId>, cs: seq<CollectionId>, useDefault: bool, account: OrphanAccount)
      requires Valid() && account.user < |users| && account.defaultPseud < |pseuds|
      modifies this`participants, this`pseuds
      ensures Valid()
      ensures OrphanState(participants, pseuds)
        == OrphanAll(OrphanState(old(participants), old(pseuds)), |collections|, ps, cs, useDefault, account)
      ensures Preserves(OrphanState(old(participants), old(pseuds)), OrphanState(participants, pseuds), cs)
    {
      ValidIsSound(Snapshot());
      OrphanAllSound(OrphanState(participants, pseuds), |collections|, |users|, ps, cs, useDefault, account);
      var i := 0;
      while i < |ps|
        invariant 0 <= i <= |ps|
        invariant Valid() && account.defaultPseud < |pseuds|
        invariant OrphanAll(OrphanState(participants, pseuds), |collections|, ps[i..], cs, useDefault, account)
          == OrphanAll(OrphanState(old(participants), old(pseuds)), |collections|, ps, cs, useDefault, account)
      {
        assert ps[i..][1..] == ps[i + 1..];
        OrphanPseud(ps[i], cs, useDefault, account);
        i := i + 1;
      }
      assert ps[i..] == [];
    }
  }
}

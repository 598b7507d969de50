/** The validations run when a collection is saved: owners, nesting depth,
    the parent reference and the actor's permission on it, and the formats
    of name, title, description and header image. Each validator yields the
    errors it adds; a collection is valid when all of them yield none. The
    acting user (the archive's current user) is an explicit parameter.

    A save validates the row as it is held in memory, `self`, before it is
    written: self's attributes and its own participant records come from
    `self` and `own`, and every query (the parent's row and records, the
    parent's parent, the children and their children, find_by_name, the
    other rows' names) reads the stored tables `db`. */
module Validation {
  import opened Lists
  import opened Participants
  import opened Records
  import opened Aggregates

  /** The archive's configured bounds (TITLE_MIN, TITLE_MAX, SUMMARY_MAX). */
  datatype Config = Config(titleMin: nat, titleMax: nat, summaryMax: nat)

  datatype CollectionError =
    | NoValidOwners
    | NestedTooDeep
    | ParentNotFound(name: string)
    | SelfParenting
    | NoSubcollectionPermission(parentName: string)
    | NameMissing
    | NameTaken
    | NameTooShort
    | NameTooLong
    | NameInvalid
    | TitleMissing
    | TitleTooShort
    | TitleTooLong
    | TitleReserved
    | DescriptionTooLong
    | HeaderImageInvalid

  // ---------------------------------------------------------------------
  // Owners
  // ---------------------------------------------------------------------

  /** collection_participants: the participant records of `c`, in table order. */
  function RecordsOf(parts: seq<Participant>, c: CollectionId): (r: seq<Participant>)
    ensures forall p :: p in r <==> p in parts && p.collection == c
  {
    if parts == [] then []
    else
      var init := parts[..|parts| - 1];
      var last := parts[|parts| - 1];
      assert parts == init + [last];
      RecordsOf(init, c) + (if last.collection == c then [last] else [])
  }

  predicate HasOwner(ps: seq<Participant>) {
    exists i :: 0 <= i < |ps| && IsOwner(ps[i])
  }

  /** must_have_owners: an owner among the row's own participant records
      `own` (for a new collection, the nested records not yet saved)
      followed by the stored records of its parent. */
  function MustHaveOwners(db: Db, parent: Option<CollectionId>, own: seq<Participant>): seq<CollectionError> {
    var candidates := own + (match parent case Some(p) => RecordsOf(db.participants, p) case None => []);
    if HasOwner(candidates) then [] else [NoValidOwners]
  }

  lemma HasOwnerConcat(a: seq<Participant>, b: seq<Participant>)
    ensures HasOwner(a + b) <==> HasOwner(a) || HasOwner(b)
  {
    if HasOwner(a + b) {
      var i :| 0 <= i < |a + b| && IsOwner((a + b)[i]);
      if i >= |a| {
        assert IsOwner(b[i - |a|]);
      } else {
        assert IsOwner(a[i]);
      }
    }
    if HasOwner(a) {
      var i :| 0 <= i < |a| && IsOwner(a[i]);
      assert IsOwner((a + b)[i]);
    }
    if HasOwner(b) {
      var i :| 0 <= i < |b| && IsOwner(b[i]);
      assert IsOwner((a + b)[|a| + i]);
    }
  }

  /** The records of `c` include an owner exactly when some pseud owns `c`. */
  lemma HasOwnerRecords(db: Db, c: CollectionId)
    ensures HasOwner(RecordsOf(db.participants, c)) <==> exists x: nat :: HoldsIn(db, c, x, Owners)
  {
    var own := RecordsOf(db.participants, c);
    if HasOwner(own) {
      var i :| 0 <= i < |own| && IsOwner(own[i]);
      assert own[i] in db.participants;
      var j :| 0 <= j < |db.participants| && db.participants[j] == own[i];
      assert Links(db.participants[j], c, own[i].pseud, Owners);
      assert HoldsIn(db, c, own[i].pseud, Owners);
    }
    if exists x: nat :: HoldsIn(db, c, x, Owners) {
      var x: nat :| HoldsIn(db, c, x, Owners);
      var j :| 0 <= j < |db.participants| && Links(db.participants[j], c, x, Owners);
      assert db.participants[j] in own;
      var i :| 0 <= i < |own| && own[i] == db.participants[j];
      assert IsOwner(own[i]);
      assert HasOwner(own);
    }
  }

  /** all_owners is non-empty exactly when some pseud owns the collection or its parent. */
  lemma AllOwnersNonEmpty(db: Db, c: CollectionId)
    requires c < |db.collections|
    ensures All(db, c, Owners) != [] <==> exists x: nat :: HoldsInTree(db, c, x, Owners)
  {
    var all := All(db, c, Owners);
    if all != [] {
      assert all[0] in all;
    }
    if exists x: nat :: HoldsInTree(db, c, x, Owners) {
      var x: nat :| HoldsInTree(db, c, x, Owners);
      assert x in all;
    }
  }

  /** The owner check passes exactly when an owner is among the row's own
      records or some stored record makes a pseud owner of its parent. */
  lemma MustHaveOwnersMeaning(db: Db, parent: Option<CollectionId>, own: seq<Participant>)
    ensures MustHaveOwners(db, parent, own) == [] <==>
      HasOwner(own) || (parent.Some? && exists x: nat :: HoldsIn(db, parent.value, x, Owners))
  {
    var inherited := match parent case Some(p) => RecordsOf(db.participants, p) case None => [];
    HasOwnerConcat(own, inherited);
    if parent.Some? {
      HasOwnerRecords(db, parent.value);
    }
  }

  /** Re-validating a stored collection with its stored records, the owner
      check passes exactly when all_owners is not empty, that is, when some
      record makes a pseud owner of the collection or of its parent. */
  lemma StoredOwnersMeaning(db: Db, c: CollectionId)
    requires c < |db.collections|
    ensures MustHaveOwners(db, Parent(db, c), RecordsOf(db.participants, c)) == [] <==>
      exists x: nat :: HoldsInTree(db, c, x, Owners)
    ensures MustHaveOwners(db, Parent(db, c), RecordsOf(db.participants, c)) == [] <==> All(db, c, Owners) != []
  {
    MustHaveOwnersMeaning(db, Parent(db, c), RecordsOf(db.participants, c));
    HasOwnerRecords(db, c);
    if Parent(db, c).Some? {
      var p := Parent(db, c).value;
      if exists x: nat :: HoldsIn(db, p, x, Owners) {
        var x: nat :| HoldsIn(db, p, x, Owners);
        assert HoldsInTree(db, c, x, Owners);
      }
    }
    if exists x: nat :: HoldsIn(db, c, x, Owners) {
      var x: nat :| HoldsIn(db, c, x, Owners);
      assert HoldsInTree(db, c, x, Owners);
    }
    AllOwnersNonEmpty(db, c);
  }

  // ---------------------------------------------------------------------
  // Nesting depth
  // ---------------------------------------------------------------------

  /** collection_depth for row `c` about to point at `parent`: no
      grandparent, not both a parent and children, and no child that has
      children, the parent's parent and the children read from `db`. */
  function CollectionDepth(db: Db, c: CollectionId, parent: Option<CollectionId>): seq<CollectionError>
    requires parent.Some? ==> parent.value < |db.collections|
  {
    var children := Children(db, c);
    if (parent.Some? && Parent(db, parent.value).Some?)
       || (parent.Some? && children != [])
       || (children != [] && exists i :: 0 <= i < |children| && Children(db, children[i]) != [])
    then [NestedTooDeep]
    else []
  }

  /** `x` has a parent that itself has a parent: a path of two parent links. */
  ghost predicate HasGrandparent(db: Db, x: CollectionId)
    requires x < |db.collections|
  {
    Parent(db, x).Some? && Parent(db, Parent(db, x).value).Some?
  }

  /** `c` is one of the three collections on a path of two parent links. */
  ghost predicate OnTwoLinkPath(db: Db, c: CollectionId)
    requires c < |db.collections|
  {
    exists x :: 0 <= x < |db.collections| && HasGrandparent(db, x) &&
      (c == x || c == Parent(db, x).value || c == Parent(db, Parent(db, x).value).value)
  }

  /** Each of the three depth conditions exhibits a path of two links through `c`. */
  lemma DepthErrorGivesPath(db: Db, c: CollectionId)
    requires c < |db.collections|
    requires CollectionDepth(db, c, Parent(db, c)) != []
    ensures OnTwoLinkPath(db, c)
  {
    var parent := Parent(db, c);
    var children := Children(db, c);
    if parent.Some? && Parent(db, parent.value).Some? {
      assert HasGrandparent(db, c);
    } else if parent.Some? && children != [] {
      var d := children[0];
      assert d in children;
      assert HasGrandparent(db, d) && Parent(db, d).value == c;
    } else {
      var i :| 0 <= i < |children| && Children(db, children[i]) != [];
      var d := children[i];
      var e := Children(db, d)[0];
      assert e in Children(db, d);
      assert d in children;
      assert HasGrandparent(db, e) && Parent(db, Parent(db, e).value).value == c;
    }
  }

  /** A path of two links through `c` trips one of the three depth conditions. */
  lemma PathGivesDepthError(db: Db, c: CollectionId)
    requires c < |db.collections|
    requires OnTwoLinkPath(db, c)
    ensures CollectionDepth(db, c, Parent(db, c)) != []
  {
    var children := Children(db, c);
    var x :| 0 <= x < |db.collections| && HasGrandparent(db, x) &&
      (c == x || c == Parent(db, x).value || c == Parent(db, Parent(db, x).value).value);
    var y := Parent(db, x).value;
    if c == x {
    } else if c == y {
      assert x in children;
    } else {
      assert y in children;
      var i :| 0 <= i < |children| && children[i] == y;
      assert x in Children(db, children[i]);
    }
  }

  /** No stored collection has `c` as its parent. */
  ghost predicate Childless(db: Db, c: CollectionId) {
    forall d :: 0 <= d < |db.collections| ==> Parent(db, d) != Some(c)
  }

  /** No stored child of `c` has a child of its own. */
  ghost predicate NoGrandchildren(db: Db, c: CollectionId) {
    forall d, e :: 0 <= d < |db.collections| && 0 <= e < |db.collections| && Parent(db, d) == Some(c)
                   ==> Parent(db, e) != Some(d)
  }

  lemma ChildlessMeaning(db: Db, c: CollectionId)
    ensures Childless(db, c) <==> Children(db, c) == []
  {
    if Children(db, c) != [] {
      assert Children(db, c)[0] in Children(db, c);
    }
    if !Childless(db, c) {
      var d :| 0 <= d < |db.collections| && Parent(db, d) == Some(c);
      assert d in Children(db, c);
    }
  }

  lemma NoGrandchildrenMeaning(db: Db, c: CollectionId)
    ensures NoGrandchildren(db, c) <==>
      !exists i :: 0 <= i < |Children(db, c)| && Children(db, Children(db, c)[i]) != []
  {
    var children := Children(db, c);
    if !NoGrandchildren(db, c) {
      var d, e :| 0 <= d < |db.collections| && 0 <= e < |db.collections| && Parent(db, d) == Some(c)
                  && Parent(db, e) == Some(d);
      assert d in children;
      var i :| 0 <= i < |children| && children[i] == d;
      assert e in Children(db, children[i]);
    }
    if exists i :: 0 <= i < |children| && Children(db, children[i]) != [] {
      var i :| 0 <= i < |children| && Children(db, children[i]) != [];
      var e := Children(db, children[i])[0];
      assert e in Children(db, children[i]);
      assert children[i] in children;
      assert !NoGrandchildren(db, c);
    }
  }

  /** Whatever parent it is about to point at, the depth check on `c`
      passes exactly when, with a parent, that parent has none and `c` has
      no children, and, without one, no child of `c` has children. */
  lemma DepthErrorCases(db: Db, c: CollectionId, parent: Option<CollectionId>)
    requires parent.Some? ==> parent.value < |db.collections|
    ensures CollectionDepth(db, c, parent) == [] <==>
      if parent.Some? then Parent(db, parent.value).None? && Childless(db, c) else NoGrandchildren(db, c)
  {
    ChildlessMeaning(db, c);
    NoGrandchildrenMeaning(db, c);
  }

  /** Re-validated with its stored parent, a collection fails the depth
      check exactly when it lies on a path of two parent links, as the
      bottom, the middle or the top. */
  lemma DepthErrorMeaning(db: Db, c: CollectionId)
    requires c < |db.collections|
    ensures CollectionDepth(db, c, Parent(db, c)) != [] <==> OnTwoLinkPath(db, c)
  {
    if CollectionDepth(db, c, Parent(db, c)) != [] {
      DepthErrorGivesPath(db, c);
    }
    if OnTwoLinkPath(db, c) {
      PathGivesDepthError(db, c);
    }
  }

  /** No collection has a grandparent: the tree has at most two levels. */
  ghost predicate TwoLevels(db: Db) {
    forall x :: 0 <= x < |db.collections| ==> !HasGrandparent(db, x)
  }

  /** Every collection passes the depth check exactly when the whole
      hierarchy has at most two levels. */
  lemma DepthValidIffTwoLevels(db: Db)
    ensures (forall c :: 0 <= c < |db.collections| ==> CollectionDepth(db, c, Parent(db, c)) == []) <==> TwoLevels(db)
  {
    if forall c :: 0 <= c < |db.collections| ==> CollectionDepth(db, c, Parent(db, c)) == [] {
      forall x | 0 <= x < |db.collections| ensures !HasGrandparent(db, x) {
        DepthErrorMeaning(db, x);
      }
    }
    if TwoLevels(db) {
      forall c | 0 <= c < |db.collections| ensures CollectionDepth(db, c, Parent(db, c)) == [] {
        DepthErrorMeaning(db, c);
      }
    }
  }

  // ---------------------------------------------------------------------
  // The parent reference
  // ---------------------------------------------------------------------

  /** parent_name: the name last assigned, else the name of the stored
      parent row, else "". */
  function ParentName(db: Db, self: Collection): string {
    match self.parentNameAttr
    case Some(n) => n
    case None => match ParentOf(db, self) case Some(p) => db.collections[p].name case None => ""
  }

  /** parent_name=: remembers the name and points the parent at the stored
      collection found under it, or at none; no other attribute changes. */
  function SetParentName(db: Db, self: Collection, name: string): (r: Collection)
    ensures r.(parentNameAttr := self.parentNameAttr, parentId := self.parentId) == self
    ensures r.parentNameAttr == Some(name) && ParentName(db, r) == name
    ensures ParentOf(db, r) == FindByName(db, name)
  {
    self.(parentNameAttr := Some(name), parentId := FindByName(db, name))
  }

  /** parent_exists: a non-blank parent name must name a stored collection. */
  function ParentExists(db: Db, self: Collection): seq<CollectionError> {
    var name := ParentName(db, self);
    if !Blank(name) && FindByName(db, name).None? then [ParentNotFound(name)] else []
  }

  /** parent_is_allowed for row `c` about to point at `parent`: no
      collection is its own parent, and the actor must maintain the parent. */
  function ParentIsAllowed(db: Db, c: CollectionId, parent: Option<CollectionId>, actor: Option<UserId>): seq<CollectionError>
    requires parent.Some? ==> parent.value < |db.collections|
  {
    match parent
    case None => []
    case Some(p) =>
      if p == c then [SelfParenting]
      else if !UserIsMaintainer(db, p, actor) then [NoSubcollectionPermission(db.collections[p].name)]
      else []
  }

  /** Self-parenting is refused whoever acts; any other parent is refused
      exactly when the actor maintains neither it nor its own parent through
      one of their pseuds, so nobody without a real user can attach a parent. */
  lemma ParentIsAllowedMeaning(db: Db, c: CollectionId, parent: Option<CollectionId>, actor: Option<UserId>)
    requires parent.Some? ==> parent.value < |db.collections|
    ensures parent == Some(c) ==> ParentIsAllowed(db, c, parent, actor) == [SelfParenting]
    ensures parent.Some? && parent != Some(c) ==>
      (ParentIsAllowed(db, c, parent, actor) == [] <==>
        actor.Some? && (UserHolds(db, parent.value, actor.value, Owners)
                        || UserHolds(db, parent.value, actor.value, Moderators)))
    ensures parent.Some? && actor.None? ==> ParentIsAllowed(db, c, parent, actor) != []
  {
    if parent.Some? && parent.value != c {
      MaintainerStanding(db, parent.value, actor);
      assert ParentIsAllowed(db, c, parent, actor) == [] <==> UserIsMaintainer(db, parent.value, actor);
    }
  }

  /** Naming a stored collection's own name as its parent (when no earlier
      collection has that name) always fails with the self-parenting error,
      whatever the row being saved holds otherwise. */
  lemma OwnNameAsParentFails(db: Db, c: CollectionId, self: Collection, actor: Option<UserId>)
    requires c < |db.collections|
    requires forall j :: 0 <= j < c ==> db.collections[j].name != db.collections[c].name
    ensures ParentIsAllowed(db, c, ParentOf(db, SetParentName(db, self, db.collections[c].name)), actor) == [SelfParenting]
  {
    assert FindByName(db, db.collections[c].name) == Some(c);
  }

  /** A top-level collection without children that names itself as parent
      trips the self-parenting check and not the depth check: its stored row
      has no parent and no children. */
  lemma SelfParentingReported(db: Db, c: CollectionId, actor: Option<UserId>)
    requires c < |db.collections| && Parent(db, c).None? && Childless(db, c)
    ensures CollectionDepth(db, c, Some(c)) + ParentIsAllowed(db, c, Some(c), actor) == [SelfParenting]
  {
    DepthErrorCases(db, c, Some(c));
  }

  /** A non-blank parent name that names no stored collection leaves no
      parent and fails the existence check, even when it is the name the
      row being saved now carries. */
  lemma UnknownParentNameFails(db: Db, self: Collection, name: string)
    requires !Blank(name) && forall j :: 0 <= j < |db.collections| ==> db.collections[j].name != name
    ensures ParentOf(db, SetParentName(db, self, name)).None?
    ensures ParentExists(db, SetParentName(db, self, name)) == [ParentNotFound(name)]
  {
  }

  // ---------------------------------------------------------------------
  // Name
  // ---------------------------------------------------------------------

  predicate IsAlnum(ch: char) {
    ('A' <= ch <= 'Z') || ('a' <= ch <= 'z') || ('0' <= ch <= '9')
  }

  /** Ruby's \w: [A-Za-z0-9_]. */
  predicate IsWordChar(ch: char) {
    IsAlnum(ch) || ch == '_'
  }

  /** [A-Za-z0-9]\w*[A-Za-z0-9] matching the whole of `s`. */
  predicate NameBody(s: string) {
    |s| >= 2 && IsAlnum(s[0]) && IsAlnum(s[|s| - 1])
    && forall i :: 0 < i < |s| - 1 ==> IsWordChar(s[i])
  }

  /** The name format as written, \A[A-Za-z0-9]\w*[A-Za-z0-9]\Z. In Ruby \Z
      also matches just before a final line break, so a name followed by
      "\n" passes as well. */
  predicate NameFormatAsWritten(s: string) {
    NameBody(s) || (|s| >= 1 && s[|s| - 1] == '\n' && NameBody(s[..|s| - 1]))
  }

  /** The format the error message describes, anchored with \z: begins and
      ends with a letter or digit, underscores allowed in between. */
  predicate NameFormat(s: string) {
    NameBody(s)
  }

  /** The as-written pattern lets a trailing line break into a name. */
  lemma NameFormatAcceptsTrailingNewline()
    ensures NameFormatAsWritten("ab\n") && !NameFormat("ab\n")
  {
    assert "ab\n"[..2] == "ab";
  }

  /** A name of the intended format has at least two characters, begins and
      ends with a letter or digit and holds nothing but letters, digits and
      underscores; the as-written pattern accepts everything it accepts. */
  lemma NameFormatMeaning(s: string)
    requires NameFormat(s)
    ensures |s| >= 2 && IsAlnum(s[0]) && IsAlnum(s[|s| - 1])
    ensures forall i :: 0 <= i < |s| ==> IsWordChar(s[i])
    ensures !Blank(s)
    ensures NameFormatAsWritten(s)
  {
    assert !IsSpace(s[0]);
  }

  function LowerAscii(ch: char): char {
    if 'A' <= ch <= 'Z' then (ch as int + 32) as char else ch
  }

  /** Equal names up to ASCII letter case. */
  predicate SameNameIgnoringCase(a: string, b: string) {
    |a| == |b| && forall i :: 0 <= i < |a| ==> LowerAscii(a[i]) == LowerAscii(b[i])
  }

  /** validates_uniqueness_of :name, case-insensitively, among the stored
      collections other than `c`. */
  predicate NameTakenByOther(db: Db, c: CollectionId, name: string) {
    exists j :: 0 <= j < |db.collections| && j != c && SameNameIgnoringCase(db.collections[j].name, name)
  }

  /** The name validations in declaration order: presence, uniqueness,
      minimum and maximum length, format. */
  function NameErrors(cfg: Config, db: Db, c: CollectionId, name: string): seq<CollectionError> {
    (if Blank(name) then [NameMissing] else [])
    + (if NameTakenByOther(db, c, name) then [NameTaken] else [])
    + (if |name| < cfg.titleMin then [NameTooShort] else [])
    + (if |name| > cfg.titleMax then [NameTooLong] else [])
    + (if NameFormat(name) then [] else [NameInvalid])
  }

  // ---------------------------------------------------------------------
  // Title, description, header image
  // ---------------------------------------------------------------------

  /** The title holds the reserved two-character string ",,". */
  predicate HasReservedString(s: string) {
    exists i :: 0 <= i < |s| - 1 && s[i] == ',' && s[i + 1] == ','
  }

  /** The title validations in declaration order: presence, minimum and
      maximum length, no reserved string. */
  function TitleErrors(cfg: Config, title: string): seq<CollectionError> {
    (if Blank(title) then [TitleMissing] else [])
    + (if |title| < cfg.titleMin then [TitleTooShort] else [])
    + (if |title| > cfg.titleMax then [TitleTooLong] else [])
    + (if HasReservedString(title) then [TitleReserved] else [])
  }

  /** Whatever surrounds it, a title containing ",," is refused. */
  lemma ReservedTitleRejected(cfg: Config, a: string, b: string)
    ensures TitleReserved in TitleErrors(cfg, a + ",," + b)
  {
    var t := a + ",," + b;
    assert t[|a|] == ',' && t[|a| + 1] == ',';
  }

  /** The description may be blank; otherwise it is bounded by SUMMARY_MAX. */
  function DescriptionErrors(cfg: Config, description: string): seq<CollectionError> {
    if !Blank(description) && |description| > cfg.summaryMax then [DescriptionTooLong] else []
  }

  /** One of the accepted image extensions starts at position i. */
  predicate ExtensionAt(s: string, i: nat)
    requires i + 4 <= |s|
  {
    s[i..i + 4] == ".png" || s[i..i + 4] == ".gif" || s[i..i + 4] == ".jpg"
  }

  /** The header image pattern as written, /\.(png|gif|jpg)$/. Ruby's $
      matches at the end of any line, so the extension may be followed by a
      line break and more text. */
  predicate ImageSuffixAsWritten(s: string) {
    exists i: nat :: i + 4 <= |s| && ExtensionAt(s, i) && (i + 4 == |s| || s[i + 4] == '\n')
  }

  /** The intended check: the URL ends with .png, .gif or .jpg. */
  predicate ImageSuffix(s: string) {
    |s| >= 4 && ExtensionAt(s, |s| - 4)
  }

  /** The as-written pattern also accepts a URL whose image extension ends
      an earlier line, not the string. */
  lemma ImageSuffixAcceptsLaterLines()
    ensures ImageSuffixAsWritten("a.png\nb") && !ImageSuffix("a.png\nb")
  {
    assert "a.png\nb"[1..5] == ".png";
    assert ExtensionAt("a.png\nb", 1);
    assert "a.png\nb"[3..7] == "ng\nb";
  }

  /** The intended check is stricter than the pattern as written. */
  lemma ImageSuffixStricter(s: string)
    ensures ImageSuffix(s) ==> ImageSuffixAsWritten(s)
  {
    if ImageSuffix(s) {
      var i: nat := |s| - 4;
      assert i + 4 == |s| && ExtensionAt(s, i);
    }
  }

  /** The header image URL may be blank; otherwise it must be an image. */
  function HeaderImageErrors(url: string): seq<CollectionError> {
    if !Blank(url) && !ImageSuffix(url) then [HeaderImageInvalid] else []
  }

  // ---------------------------------------------------------------------
  // All validations
  // ---------------------------------------------------------------------

  /** Every error saving `self` as collection `c` would add, in the order
      the validations are declared: `own` are self's participant records
      and `db` the stored tables. */
  function CollectionErrors(cfg: Config, db: Db, c: CollectionId, self: Collection, own: seq<Participant>, actor: Option<UserId>): seq<CollectionError> {
    var parent := ParentOf(db, self);
    MustHaveOwners(db, parent, own) + CollectionDepth(db, c, parent) + ParentExists(db, self)
    + ParentIsAllowed(db, c, parent, actor) + NameErrors(cfg, db, c, self.name) + TitleErrors(cfg, self.title)
    + DescriptionErrors(cfg, self.description) + HeaderImageErrors(self.headerImageUrl)
  }

  /** The validations that take effect as declared. The four hierarchy
      checks are declared with `:on => :save`, which makes them run only in
      a validation context named :save; a save validates in context :create
      or :update, so only the attribute checks remain. */
  function DeclaredSaveErrors(cfg: Config, db: Db, c: CollectionId, self: Collection): seq<CollectionError> {
    NameErrors(cfg, db, c, self.name) + TitleErrors(cfg, self.title)
    + DescriptionErrors(cfg, self.description) + HeaderImageErrors(self.headerImageUrl)
  }

  /** As declared, a top-level collection without a single participant
      record saves whenever its attributes are valid; the intended
      validations refuse it for having no owner. */
  lemma OwnerlessSavesAsDeclared(cfg: Config, db: Db, c: CollectionId, self: Collection, actor: Option<UserId>)
    requires DeclaredSaveErrors(cfg, db, c, self) == []
    requires ParentOf(db, self).None?
    ensures CollectionErrors(cfg, db, c, self, [], actor) != []
    ensures CollectionErrors(cfg, db, c, self, [], actor)[0] == NoValidOwners
  {
    assert !HasOwner([] + []);
  }

  /** What a row that passes validation is known to satisfy. */
  lemma ValidCollection(cfg: Config, db: Db, c: CollectionId, self: Collection, own: seq<Participant>, actor: Option<UserId>)
    requires CollectionErrors(cfg, db, c, self, own, actor) == []
    ensures HasOwner(own) || (ParentOf(db, self).Some? && exists x: nat :: HoldsIn(db, ParentOf(db, self).value, x, Owners))
    ensures ParentOf(db, self).Some? ==> Parent(db, ParentOf(db, self).value).None? && Childless(db, c)
    ensures NoGrandchildren(db, c)
    ensures Blank(ParentName(db, self)) || FindByName(db, ParentName(db, self)).Some?
    ensures ParentOf(db, self) != Some(c)
    ensures ParentOf(db, self).Some? ==> UserIsMaintainer(db, ParentOf(db, self).value, actor)
    ensures NameFormat(self.name) && cfg.titleMin <= |self.name| <= cfg.titleMax
    ensures !NameTakenByOther(db, c, self.name)
    ensures !HasReservedString(self.title)
    ensures !Blank(self.title) && cfg.titleMin <= |self.title| <= cfg.titleMax
    ensures Blank(self.description) || |self.description| <= cfg.summaryMax
    ensures Blank(self.headerImageUrl) || ImageSuffix(self.headerImageUrl)
  {
    MustHaveOwnersMeaning(db, ParentOf(db, self), own);
    DepthErrorCases(db, c, ParentOf(db, self));
  }

  /** A stored row read back has no parent_name= attribute, so its parent
      name is the stored parent's current name and parent_exists passes:
      renaming the parent leaves the child valid. */
  lemma ReloadedParentExists(db: Db, c: CollectionId)
    requires c < |db.collections|
    ensures ParentOf(db, Reloaded(db.collections[c])) == Parent(db, c)
    ensures Parent(db, c).Some? ==> ParentName(db, Reloaded(db.collections[c])) == db.collections[Parent(db, c).value].name
    ensures Parent(db, c).None? ==> ParentName(db, Reloaded(db.collections[c])) == ""
    ensures ParentExists(db, Reloaded(db.collections[c])) == []
  {
    var self := Reloaded(db.collections[c]);
    if Parent(db, c).Some? {
      var p := Parent(db, c).value;
      assert db.collections[p].name == ParentName(db, self);
    }
  }

  /** A stored collection that passes re-validation with its stored records
      has an owner through all_owners and lies on no path of two parent links. */
  lemma ValidStoredCollection(cfg: Config, db: Db, c: CollectionId, actor: Option<UserId>)
    requires c < |db.collections|
    requires CollectionErrors(cfg, db, c, Reloaded(db.collections[c]), RecordsOf(db.participants, c), actor) == []
    ensures All(db, c, Owners) != []
    ensures !OnTwoLinkPath(db, c)
  {
    StoredOwnersMeaning(db, c);
    DepthErrorMeaning(db, c);
  }
}

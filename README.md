# Collections and their participants

This project models the collection rules of the fan-fiction archive in Dafny and proves properties of them. The rules come from the `Collection` and `CollectionParticipant` models.

A collection has participants, and each participant record links one pseud to the collection with one role: None, Owner, Moderator or Member. Collections nest at most one level deep.

- Role sets (owners, moderators, members, posting participants, participants) flow down from a parent to its children.
- Approved works and bookmarks roll up from children to their parent.
- An item counts as approved only when both the user and the collection approved it. A work must also be posted.
- Saving a collection runs its validations: owners, nesting depth, parent, name, title, description and header image. The four hierarchy checks are modelled as running on every save, as intended (see Findings for their `:on => :save` declaration). The validations read the new attributes from the row held in memory and every lookup from the stored tables.
- Creating a collection validates the new row together with its nested participant records, then stores both.
- After a save, the records of a challenge that is no longer attached are destroyed.
- Revealing clears the unrevealed or anonymous flag on approved items.
- Orphaning hands a pseud's ownerships to the orphan account.

## Modules

- `Lists`: the Ruby list operations used throughout.
  - `uniq` is `Uniq`. Its contract states which elements are kept, not their order.
  - `&` is `Intersect`, with the same kind of contract.
  - `join` is `Join`.
  - `blank?` is `Blank`.
- `Participants`: the role enum, its strings, the role validation and the role predicates.
- `Records`: a snapshot `Db` of the tables. A record's id is its index in its table.
  - It also provides the lookups: parent, children, a collection by name, a user's pseuds.
- `Aggregates`: the `all_*` role sets, `maintainers`, the `user_is_*?` predicates, the approved content and its counts, `not_empty?`, the notification fallbacks and `get_maintainers_email`.
- `Validation`: every validation declared for a collection save, in declaration order, and `DeclaredSaveErrors`, the ones that take effect as declared.
- `Membership`: the participant save validations, `approve_membership!` and the two permission rules.
- `Archive`: the class `Store`, whose fields are the tables and the queue of deferred jobs. Its methods change the tables in place, each proved against a function of the old state:
  - saving and creating a collection, each followed by the challenge clean-up;
  - `reveal!` and `reveal_authors!`;
  - creating and approving participants;
  - `Collection.orphan`, as nested loops;
  - plain appends to the users, pseuds, items, posted-works and challenge-scoped tables, whose own models are not part of this model.

Inputs that are not modelled directly become parameters:
- The acting user (`User.current_user`) is an `Option<UserId>`. `None` stands for both `nil` and `:false`.
- The configured bounds `ArchiveConfig.TITLE_MIN`, `TITLE_MAX` and `SUMMARY_MAX` are a `Config` value.
- Whether a work is posted is the set `postedWorks`.

## Model

| member | source | states |
|---|---|---|
| Lists.Uniq | app/models/collection.rb:233 | `uniq` leaves no duplicates, keeps exactly the elements of its input and never lengthens it |
| Lists.UniqLength | app/models/collection.rb:233 | `uniq` keeps the length exactly when the input has no duplicates, and is then the identity |
| Lists.SharedElementDuplicates | app/models/collection.rb:253 | concatenating two lists that share an element creates a duplicate |
| Lists.Intersect | app/models/collection.rb:289 | `a & b` has no duplicates and holds exactly the elements in both lists |
| Lists.Join | app/models/collection.rb:348 | joining no parts gives the empty string; joining one part gives that part |
| Lists.JoinCons | app/models/collection.rb:348 | joining two or more parts gives the first part, the separator, then the join of the rest |
| Lists.JoinLength | app/models/collection.rb:348 | the joined string is as long as all parts together plus one separator between each neighbouring pair |
| Participants.RoleName | app/models/collection_participant.rb:6-10 | every role's string is one of PARTICIPANT_ROLES |
| Participants.ParseRole | app/models/collection_participant.rb:6-10 | a string names a role exactly when it is in PARTICIPANT_ROLES, and then it is that role's string |
| Participants.RoleNameRoundTrip | app/models/collection_participant.rb:6-10 | parsing a role's string gives the role back, and distinct roles have distinct strings |
| Participants.RoleErrors | app/models/collection_participant.rb:19-21 | a blank role fails both presence and inclusion; otherwise it fails inclusion exactly when it is not a PARTICIPANT_ROLES string |
| Participants.RolePredicates | app/models/collection_participant.rb:23-26 | `is_maintainer?` holds exactly for Owner or Moderator; at most one of owner, moderator and member holds; none holds for None |
| Records.ChallengeKinds | app/models/collection.rb:329-339 | a collection has a challenge exactly when it is a gift exchange or a prompt meme, and never both |
| Records.Parent | app/models/collection.rb:17 | the parent, when there is one, is an existing collection named by parent_id; a parent_id naming no row gives no parent |
| Records.Children | app/models/collection.rb:98 | the children are exactly the existing collections whose parent is this one |
| Records.FindByName | app/models/collection.rb:104 | the first collection with the name, or none exactly when no collection has it |
| Records.PseudsOfUser | app/models/collection.rb:289 | exactly the pseuds belonging to the user |
| Aggregates.PseudsWith | app/models/collection.rb:69-76 | the pseuds holding a role of the set in the collection, by a participant record |
| Aggregates.All | app/models/collection.rb:232-250 | each `all_*` set is own ∪ parent's (nothing from an absent parent), has no duplicates, and holds exactly the pseuds with such a role in the collection or its parent |
| Aggregates.Maintainers | app/models/collection.rb:284-286 | exactly the owners and moderators of the collection or its parent |
| Aggregates.UserHasPseudIn | app/models/collection.rb:289 | `user.pseuds & list` is non-empty exactly when one of the user's pseuds is in the list |
| Aggregates.ParticipatingPseudsForUser | app/models/collection.rb:308-310 | no duplicates; exactly the actor's pseuds that participate in the collection or its parent; empty without an actor |
| Aggregates.UserStanding | app/models/collection.rb:288-306 | each `user_is_*?` holds exactly when there is a real actor with a pseud holding the role in the collection or its parent; a maintainer is an owner or a moderator |
| Aggregates.ParentMaintainerMaintainsChild | app/models/collection.rb:296-298 | a pseud owning or moderating the parent makes its user a maintainer of the child |
| Aggregates.OwnersAndModeratorsMaintain | app/models/collection.rb:288-298 | an owner is a maintainer, and so is a moderator |
| Aggregates.ApprovedOf | app/models/collection.rb:54-62 | exactly the ids of the collection's items of the kind with both approvals at APPROVED, and for works a posted work |
| Aggregates.ApprovedIn | app/models/collection.rb:253 | the approved items of a list of collections are exactly those approved in one of them |
| Aggregates.AllApproved | app/models/collection.rb:252-264 | `all_approved_*` has no duplicates and holds exactly the items approved in the collection or in one of its children |
| Aggregates.AllApprovedCount | app/models/collection.rb:256-270 | the loop's count is the length of own plus every child's approved list, without removing duplicates |
| Aggregates.CountBoundsList | app/models/collection.rb:252-270 | the count is never smaller than the deduplicated list, and equals it exactly when no item repeats |
| Aggregates.SharedItemOvercounted | app/models/collection.rb:252-270 | an item approved in both a collection and its child makes the count exceed the list's length |
| Aggregates.AutocompleteScore | app/models/collection.rb:217-219 | the score is the works count plus the bookmarks count |
| Aggregates.NotEmptyMeaning | app/models/collection.rb:341-343 | a collection is not empty exactly when it has an approved work, an approved bookmark or a child |
| Aggregates.Notification | app/models/collection.rb:317-323 | the own text when set; else, with a parent, the parent's text, which may be nil; else ""; nil exactly when neither own nor parent's text is set and there is a parent |
| Aggregates.MaintainerUsers | app/models/collection.rb:348 | exactly the users owning a maintainer pseud, each once and each an existing user |
| Aggregates.MaintainersEmail | app/models/collection.rb:345-349 | the collection's own email unless blank; else the parent's unless blank; else the emails of the maintaining users joined by "," |
| Validation.RecordsOf | app/models/collection.rb:94 | exactly the participant records of the collection |
| Validation.HasOwnerConcat | app/models/collection.rb:94 | an owner is among two lists joined exactly when it is in one of them |
| Validation.HasOwnerRecords | app/models/collection.rb:94 | an owner record exists exactly when some pseud owns the collection |
| Validation.AllOwnersNonEmpty | app/models/collection.rb:232-234 | `all_owners` is non-empty exactly when some pseud owns the collection or its parent |
| Validation.MustHaveOwnersMeaning | app/models/collection.rb:91-95 | `must_have_owners` passes exactly when an Owner is among the row's own records or some stored record makes a pseud owner of its parent |
| Validation.StoredOwnersMeaning | app/models/collection.rb:91-95 | re-validating a stored collection, the owner check passes exactly when `all_owners` is non-empty |
| Validation.ChildlessMeaning | app/models/collection.rb:98 | `children.empty?` holds exactly when no stored collection has this one as parent |
| Validation.NoGrandchildrenMeaning | app/models/collection.rb:98 | the children's children are all empty exactly when no stored child has a child |
| Validation.DepthErrorCases | app/models/collection.rb:97-101 | for the parent the row is about to point at, the depth check passes exactly when that parent has no parent and the collection no children, or, without a parent, when no child has children |
| Validation.DepthErrorGivesPath | app/models/collection.rb:97-101 | re-validating a stored collection, a depth error means it lies on a path of two parent links |
| Validation.PathGivesDepthError | app/models/collection.rb:97-101 | a stored collection on a path of two parent links gets a depth error |
| Validation.DepthErrorMeaning | app/models/collection.rb:97-101 | re-validating a stored collection, the depth check errs exactly when it lies on a path of two parent links, as bottom, middle or top |
| Validation.DepthValidIffTwoLevels | app/models/collection.rb:97-101 | every collection passes the depth check exactly when no collection has a grandparent |
| Validation.SetParentName | app/models/collection.rb:223-230 | `parent_name=` points the parent at the stored collection the lookup finds, makes `parent_name` that name, and changes no other attribute of the row |
| Validation.ParentIsAllowedMeaning | app/models/collection.rb:109-115 | self-parenting always errs; any other parent errs exactly when the actor does not maintain it; with no actor a parent always errs |
| Validation.OwnNameAsParentFails | app/models/collection.rb:109-111 | naming a stored collection's own name as its parent is refused as self-parenting |
| Validation.SelfParentingReported | app/models/collection.rb:97-115 | a top-level childless collection naming itself as parent gets the self-parenting error and no depth error |
| Validation.UnknownParentNameFails | app/models/collection.rb:103-107 | a non-blank parent name matching no stored collection leaves no parent and gives exactly the not-found error, even when the row being saved now carries that name |
| Validation.NameFormatAcceptsTrailingNewline | app/models/collection.rb:127-129 | the name pattern as written accepts "ab\n", which the intended check refuses |
| Validation.NameFormatMeaning | app/models/collection.rb:127-129 | a valid name starts and ends alphanumeric, has only letters, digits and underscores, is at least 2 long and not blank |
| Validation.ReservedTitleRejected | app/models/collection.rb:140-144 | any title containing ",," gets the reserved-string error |
| Validation.ImageSuffixAcceptsLaterLines | app/models/collection.rb:152 | the header image pattern as written accepts "a.png\nb", which the intended check refuses |
| Validation.ImageSuffixStricter | app/models/collection.rb:152 | every URL the intended check accepts is accepted by the pattern as written |
| Validation.ValidCollection | app/models/collection.rb:86-152 | a row passing all validations has an owner of its own or through its parent; a parent without a parent and no children, or no grandchildren; a blank or existing parent name; no self-parent; a parent the actor maintains; a well-formed name within bounds that no other collection has; a title within bounds without ",,"; a bounded description; an image URL |
| Validation.ReloadedParentExists | app/models/collection.rb:223-230 | a stored row read back carries no parent_name= attribute, so its parent name is the stored parent's current name (or "") and parent_exists passes, even after the parent was renamed |
| Validation.ValidStoredCollection | app/models/collection.rb:86-101 | a stored collection, read back without its parent_name= attribute, that passes re-validation with its stored records has a non-empty `all_owners` and lies on no path of two parent links |
| Validation.OwnerlessSavesAsDeclared | app/models/collection.rb:86-89 | as declared with `:on => :save`, a top-level collection with no participant records saves whenever its attributes are valid, while the intended validations refuse it with the owner error first |
| Membership.SaveErrors | app/models/collection_participant.rb:16-21 | a participant save passes exactly when no other record links the pseud to the collection and the role is valid; NotUnique appears exactly for a duplicate |
| Membership.CreateKeepsUnique | app/models/collection_participant.rb:16-17 | with a valid role a new record saves exactly when it is not a duplicate, and a saved record keeps memberships unique |
| Membership.StoredRecordSaves | app/models/collection_participant.rb:16-21 | a stored record saves again with any valid role |
| Membership.Approve | app/models/collection_participant.rb:28-31 | the record's role becomes Member; its collection, its pseud and every other record stay as they were |
| Membership.ApproveIdempotent | app/models/collection_participant.rb:28-31 | approving twice equals approving once, and approval keeps memberships unique |
| Membership.DestroyMeaning | app/models/collection_participant.rb:33-35 | a record may be destroyed exactly by its pseud's user or a user owning or moderating the collection or its parent |
| Membership.PromoteMonotone | app/models/collection_participant.rb:37-39 | Owner or Moderator needs an owner, Member or None needs a maintainer, and whoever may set an elevated role may set a low one |
| Archive.ClearFlagEffect | app/models/collection.rb:368-376 | exactly the collection's approved items lose the flag; nothing else on them changes, and no other item changes |
| Archive.ClearFlagIdempotent | app/models/collection.rb:368-376 | revealing twice equals revealing once |
| Archive.ClearFlagKeepsApproved | app/models/collection.rb:368-376 | revealing changes no collection's approved works or bookmarks |
| Archive.WithoutMeaning | app/models/collection.rb:43-50 | after destroying a collection's records none of them remains and every other record does; a table without such records is unchanged |
| Archive.DestroyRecordsOf | app/models/collection.rb:45-48 | the destroy loop leaves exactly the records of other collections, in order |
| Archive.ChangeMembershipSound | app/models/collection.rb:199 | moving memberships keeps them unique, keeps each record's collection and role, and leaves other collections alone |
| Archive.ChangeMembershipMovesOwner | app/models/collection.rb:197-199 | when the orphan pseud is not yet in the collection, the old owner pseud leaves it and the orphan pseud owns it |
| Archive.FindOrCreatePseud | app/models/collection.rb:198 | returns a pseud of the orphan account with that name, creating one only when none exists |
| Archive.OrphanStepSound | app/models/collection.rb:196-200 | one orphaning step keeps the tables consistent and changes only the visited collection's records |
| Archive.OrphanOverSound | app/models/collection.rb:196-201 | the inner loop keeps the tables consistent and changes only the listed collections' records |
| Archive.OrphanAllSound | app/models/collection.rb:194-203 | orphaning keeps memberships unique and keys valid, keeps every record's collection and role, changes only listed collections and removes no pseud |
| Archive.DefaultStep | app/models/collection.rb:197-199 | a step towards the default pseud only hands records to it, changes nothing outside the visited collection, keeps the pseuds, and leaves the default pseud's records in listed collections owner records |
| Archive.DefaultAll | app/models/collection.rb:194-203 | orphaning to the default pseud keeps the tables consistent and the pseuds table unchanged, only hands records to the default pseud, and leaves its records in listed collections owner records |
| Archive.DefaultStepOwns | app/models/collection.rb:197-199 | the step for an owner of a collection leaves the default pseud owning it |
| Archive.OrphanAllDefaultOwns | app/models/collection.rb:194-203 | after orphaning to the default pseud, it owns every listed collection a listed pseud owned |
| Archive.GoneStep | app/models/collection.rb:197-199 | a step keeps "the owner is still pending, or is gone"; the owner's own step makes it gone |
| Archive.GoneAll | app/models/collection.rb:194-203 | after the nested loop a listed owner whose collection had no other listed owner has no record left there |
| Archive.OrphanToDefault | app/models/collection.rb:194-203 | with the default pseud absent from the listed collections, it ends up owning each one a listed pseud owned, and a sole listed owner is removed from it |
| Archive.CreatedRecords | app/models/collection.rb:66-67 | after the nested records are appended, the new collection's stored records are exactly the nested ones, in order |
| Archive.CreatedCollectionHasOwner | app/models/collection.rb:91-95 | a collection created past the owner check has a non-empty `all_owners` once stored, so its stored row passes that check again |
| Archive.AppendCollectionSound | app/models/collection.rb:66-67 | appending a new row with nested records naming distinct existing pseuds keeps keys valid and memberships unique |
| Archive.Store.CleanUpChallenge | app/models/collection.rb:42-50 | without a challenge the four challenge tables lose exactly the collection's records; with one they are unchanged; claims are never touched |
| Archive.Store.AddChallengeRecord | app/models/collection.rb:34-39 | a new row of one challenge-scoped table of an existing collection is appended to that table only, so the clean-up after a save has records to destroy |
| Archive.Store.SaveCollection | app/models/collection.rb:42-152 | a save returns the errors of the new row validated against the stored tables; a refused save changes nothing; an accepted save writes the row without its parent_name= attribute, which is not a column, then destroys the challenge records when no challenge is attached and keeps them otherwise |
| Archive.Store.CreateCollection | app/models/collection.rb:26-152 | a create returns the errors of the new row with its nested records as its own; a refused create changes nothing; an accepted one appends the row with the next id, without its parent_name= attribute, and its records, so the new collection's stored records are exactly the nested ones, then runs the clean-up |
| Archive.Store.Reveal | app/models/collection.rb:368-371 | `reveal!` clears `unrevealed` on exactly the approved items and queues the reveal notifications |
| Archive.Store.RevealAuthors | app/models/collection.rb:373-376 | `reveal_authors!` clears `anonymous` on exactly the approved items and queues the author-reveal notifications |
| Archive.Store.CreateParticipant | app/models/collection_participant.rb:16-21 | a new record is stored exactly when it passes the validations, and memberships stay unique |
| Archive.Store.ApproveMembership | app/models/collection_participant.rb:28-31 | the save always passes and the table becomes `Approve` of the old one |
| Archive.Store.OrphanOne | app/models/collection.rb:197-199 | one step of the nested loops, as `OrphanStep` |
| Archive.Store.OrphanPseud | app/models/collection.rb:196-201 | the inner loop, as `OrphanOver` |
| Archive.Store.Orphan | app/models/collection.rb:194-203 | the nested loops give `OrphanAll` of the old tables, keep the store consistent and satisfy everything `OrphanAllSound` states; `OrphanToDefault` describes the result for the default pseud |

## Left out

- The icon attachment, its storage and its content-type and size checks (app/models/collection.rb:5-15): these are file storage and a foreign library.
- The SQL scopes, `sorted_and_filtered` and the autocomplete index (app/models/collection.rb:154-187, 205-215, 386-419): these are query building, pagination and an external index. Only the autocomplete score is modelled.
- `all_fandoms` and `all_fandoms_count` (app/models/collection.rb:272-282): raw SQL over tag tables that are not part of this model.
- `get_participants_for_user` (app/models/collection.rb:312-315): a database scope over this collection's own participant records; not modelled.
- `async`, `perform`, `notify_maintainers` and the send-notification methods (app/models/collection.rb:351-366, 378-384): job queueing and mail. `reveal!` and `reveal_authors!` append a typed job to `Store.jobs` instead.
- The e-mail veracity validator and the `URI::regexp` header-URL check (app/models/collection.rb:131, 151): foreign validators. The image-suffix check is kept.
- The message texts (`ts`, `t`): every error is a constructor of `CollectionError` or `ParticipantError` instead.
- `CollectionParticipant::INVITED` (app/models/collection.rb:71) is not among PARTICIPANT_ROLES, so the `invited` association is left out and no Invited role exists.
- `ensure_associated` (app/models/collection.rb:26-30): every modelled collection holds a preference and a profile value by construction.
- Nested attributes on an existing collection (app/models/collection.rb:53, 67): adding, changing or destroying participant or item records through a collection save is not modelled. A save validates the row with its stored records. Nested participant records are modelled for a new collection, by `CreateCollection`.
- The users, pseuds, items, posted-works and challenge-scoped tables (assignments, potential matches, signups, prompts, claims) are written by plain appends (`AddUser`, `AddPseud`, `AddItem`, `PostWork`, `AddChallengeRecord`), since the models that own them are not part of this model.
- `Archive.Store.CreateCollection`: requires the nested records to name existing and distinct pseuds. Rails checks each nested record's uniqueness only against stored rows, so two nested records for one pseud would both be stored.
- `Archive.Store.CreateCollection`: a nested record's role is a `Role`, so a nested record with a blank or unknown role string cannot be expressed. In the source such a record fails its own role validation (app/models/collection_participant.rb:19-21) and the create is refused; the model does not represent that refusal.
- `Validation.NameErrors`: uses the corrected `NameFormat` (see Findings). The program as written also accepts a valid name followed by one line break, so the format part of `Validation.ValidCollection` holds of the corrected model, not of the program as written.
- `Validation.HeaderImageErrors`: uses the corrected `ImageSuffix` (see Findings). The program as written also accepts a URL whose extension ends an earlier line.
- `Validation.ValidCollection`: its name-format and image-suffix conclusions are the corrected checks; `NameFormatMeaning` and `ImageSuffixStricter` relate them to the patterns as written.
- `Validation.TitleErrors`: an unset title is the empty string, so it gets the missing and too-short errors. In the source a nil title makes `no_reserved_strings` raise when it calls `match` on nil (app/models/collection.rb:143).
- `Archive.OrphanToDefault`: the ownership results are stated for the default pseud only. With `find_or_create_by_name`, each pseud goes to its own orphan pseud, and only the consistency that `OrphanAllSound` states is proved.
- The preference readers `moderated?`, `closed?`, `unrevealed?` and `anonymous?` (app/models/collection.rb:325-328): each is only a field read of `Preference`.
- `Pseud#change_membership` is not part of this model's source. `ChangeMembership` takes it to move each record of the pseud in the collection to the new pseud, and to save each move only when the uniqueness validation lets it.
- `Records.FindByName`: matches names exactly, because the database collation that may make the lookup case-insensitive is not part of this model.
- `Archive.FindOrCreatePseud`: `find_or_create_by_name` (app/models/collection.rb:198) is modelled as an exact name match for the same reason.
- `Lists.Blank`: treats only ASCII white space as blank, because Unicode white space is not modelled. An unset string column is the empty string.
- `Records.ChallengeKinds`: `gift_exchange?` and `prompt_meme?` read `challenge_type`, which the model keeps only as the kind of an attached challenge. A type column set without a challenge is not represented.
- `Archive.Store.CreateParticipant`: requires the collection and the pseud to exist, which the foreign keys demand but the source does not check.
- `Archive.Store.Orphan`: a pseud or collection that is `nil` in the source is an id outside its table, and the orphan account is a parameter rather than a lookup.
- Concurrency, transactions and the order in which the database returns rows are not modelled. Rows come back in id order.

## Findings

| source | as written | input that shows it | evidently intended | confidence | as-written member | corrected member |
|---|---|---|---|---|---|---|
| app/models/collection.rb:127-129 | the name pattern ends with `\Z`, which also matches before a final line break | the name "ab\n" passes the format check | `\z`: the name ends with an alphanumeric character | not executed | Validation.NameFormatAcceptsTrailingNewline | Validation.NameFormatMeaning |
| app/models/collection.rb:152 | the image pattern ends with `$`, which matches at the end of any line | the URL "a.png\nb" passes the image check | `\z`: the URL ends with .png, .gif or .jpg | not executed | Validation.ImageSuffixAcceptsLaterLines | Validation.ImageSuffixStricter |
| app/models/collection.rb:86-89 | the four hierarchy validations are declared with `:on => :save`; in the framework's validation contexts (Rails 3) that option runs them only in a context named `:save`, and a save validates in `:create` or `:update` | a top-level collection with valid attributes and no participant records saves | the owner, depth, parent-exists and parent-allowed checks run on every save | not executed | Validation.OwnerlessSavesAsDeclared | Validation.ValidCollection |

The validators use the corrected checks, `NameFormat` and `ImageSuffix`, and every save runs the four hierarchy checks; `DeclaredSaveErrors` is the set of checks that take effect as declared.

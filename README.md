# Group membership model

A Dafny model of the group entity of the `membership` Laravel package
(`src/Group.php`). A group has a name wrapped in display tags, a member
limit where 0 means unlimited, and three many-to-many relations stored as
pivot tables: its members (`user_groups`), its leaders (`group_leaders`)
and the permissions granted to it (`group_permissions`). Assigning a user
can also set that user's `primary_group_id`.

Layout:

- `wrappers.dfy` (module `Wrappers`): `Option`.
- `pivot.dfy` (module `Pivot`): one side of a pivot table as a sequence of
  rows. `Attach` appends a row every time it is called. `Detach` removes
  every row for a key. Lemmas cover idempotence, attach/detach inverses and
  commutation.
- `permissions.dfy` (module `Permissions`): the three kinds of permission
  reference (integer key, string term, record) and their resolution through
  an abstract `Catalog` that stands for the permission store's `search` and
  `find`. Also holds the semantics of a batch grant or revoke (`ApplyFrom`)
  and what it does to the rows (`GrantBatch`, `RevokeBatch`).
- `membership.dfy` (module `Membership`): class `Group` with fields `id`,
  `name`, `openTag`, `closeTag`, `limit` and the three relations
  `members`, `leaders`, `permissions`. Class `Users` holds the user side's
  `primaryGroup` map. The group's methods update these fields in place, as
  the ORM's `attach`, `detach` and `save` do.

Three behaviours of the code worth knowing:

- `assign` is not idempotent. `attach` inserts a new row every time, so a
  user assigned twice has two rows and counts twice against the limit.
- A batch grant or revoke stops at the first reference that does not
  resolve. `resolvePermission` is declared to return a `Permission`. When
  `search` or `find` finds nothing, the call fails at that element, and the
  loop stops there. Elements before it stay applied; elements after it are never
  looked at. `Outcome.Aborted(k)` records this.
- A negative `limit` is not rejected. Because the test is
  `limit != 0 && count >= limit`, a negative limit makes the group full at
  every count, so every `assign` fails.

## Model

| member | source | states |
|---|---|---|
| `Pivot.Attach` | src/Group.php:145 | attaching adds exactly one row for the key: the row multiset grows by that key once and the count by one |
| `Pivot.Detach` | src/Group.php:171 | detaching leaves no row for the key, keeps every other key's row count, and shrinks the count by the key's former multiplicity |
| `Pivot.DetachAbsent` | src/Group.php:169-172 | retracting a user who has no row changes nothing |
| `Pivot.DetachIdempotent` | src/Group.php:169-172 | retracting twice is the same as retracting once |
| `Pivot.DetachAttach` | src/Group.php:139-172 | retract after assign removes the new row and every earlier row of that user |
| `Pivot.DetachAttachOther` | src/Group.php:139-172 | retracting one user does not undo the assignment of another |
| `Pivot.DetachCommutes` | src/Group.php:169-204 | removing two keys gives the same rows in either order; `retract` and `removeLeader` both detach |
| `Permissions.References` | src/Group.php:102-104 | a list argument is iterated as given; otherwise the call's arguments, in order, are the references, so a single reference is a one-element list |
| `Permissions.ResolvedIds` | src/Group.php:106-110 | the keys of fully resolving references, one per reference, each the key its reference resolves to, in list order |
| `Permissions.Resolve` | src/Group.php:243-252 | a record reference passes through unchanged and always resolves; only a string or integer reference can fail to resolve |
| `Permissions.Apply` | src/Group.php:106-128 | granting adds one row for the permission; revoking leaves none and keeps every other permission's rows |
| `Permissions.ApplyFrom` | src/Group.php:100-129 | a batch completes exactly when every reference resolves; an aborted batch stops at the first reference that does not resolve, after all earlier ones resolved |
| `Permissions.GrantBatch` | src/Group.php:100-111 | a grant batch appends the keys of the references it processed, in list order, and keeps them when it stops early |
| `Permissions.RevokeBatch` | src/Group.php:118-129 | a revoke batch leaves no row for any permission it processed and keeps every row of every other permission |
| `Membership.Group.MemberCount` | src/Group.php:225 | the member count counts every membership row, so a user assigned twice counts twice |
| `Membership.Group.LimitExceeded` | src/Group.php:219-226 | with limit 0 the group is never full; with a positive limit it is full exactly when the row count reaches the limit; with a negative limit it is always full |
| `Membership.Group.FormattedName` | src/Group.php:231-234 | the display name is the open tag, then the name, then the close tag, each recoverable by position |
| `Membership.Group.HasAssigned` | src/Group.php:181-184 | true exactly when the user has at least one membership row |
| `Membership.Group.HasLeader` | src/Group.php:213-216 | true exactly when the user has at least one leader row |
| `Membership.Group.Assign` | src/Group.php:139-162 | succeeds exactly when the group was not full; on failure nothing changes; on success one row is added and the count grows by one; the primary group is set to this group only on success with `primary`; the capacity invariant is kept; leaders and permissions are untouched |
| `Membership.Group.Retract` | src/Group.php:169-172 | afterwards the user is not assigned, other users keep their rows, the capacity invariant holds, primary groups, leaders and permissions are untouched |
| `Membership.Group.AddLeader` | src/Group.php:191-194 | adds one leader row, making the user a leader without requiring membership; members, count and fullness are unchanged |
| `Membership.Group.RemoveLeader` | src/Group.php:201-204 | afterwards the user is no leader; members, count and fullness are unchanged |
| `Membership.Group.GrantPermissions` | src/Group.php:100-111 | follows `ApplyFrom` in grant mode over the call's references; the rows become the old rows plus the processed keys in list order; members and leaders are untouched |
| `Membership.Group.LosePermissions` | src/Group.php:118-129 | follows `ApplyFrom` in revoke mode; no processed permission keeps a row, others keep theirs; members and leaders are untouched |

## Left out

- The permission store (`Permission::search`, `Permission::find`, `assignTo`,
  `retractFrom`) is not part of this model. `search` and `find` are fields
  of `Catalog`. `assignTo` and `retractFrom` are taken to attach and detach
  the permission's pivot row of this group. The reason: `group_permissions`
  is a `belongsToMany` pivot like `user_groups` (src/Group.php:90-93 beside
  src/Group.php:74-77), so its rows follow the same attach/detach rules. The
  consequence: in this model a repeated grant of one permission adds a
  second row, and one revoke removes them all.
- A user passed as an integer key and the same user passed as a model
  object are both a `UserId`. The null that `find` can return for an
  unknown key in `assign` is not modelled. Neither is the `->id` access that
  `hasAssigned` and `hasLeader` make on an integer argument.
- Failure of `$user->save()` and of any database write is not modelled:
  every write succeeds.
- Concurrency is not modelled. Two requests can both pass the capacity
  check before either attaches, and the model's methods run one at a time.
- The `handle` and `public` attributes and the handle generation of the
  `Handlable` trait are left out. That trait's source is not part of this
  model, and no core operation reads either attribute.
- A spread call's arguments are all taken to be single references. A list
  passed after the first argument of a spread call is not modelled.
- `config/membership.php` holds static configuration only (separators, page
  sizes, the transliteration table), with no logic to model.
- `src/Membership.php` (authentication helpers and registration of the
  authorisation gate) and `src/UservelServiceProvider.php` (framework
  wiring) are framework glue. They delegate to code that is not part of
  this model.

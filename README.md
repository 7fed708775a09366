# Categorised media list (PyMoe, MyAnimeList abstractions)

This project models `MediaList`, the categorised anime/manga list of the
PyMoe MyAnimeList client, together with the two status enumerations its
categories are keyed by. It proves that model correct against a functional
specification.

A `MediaList` is built from an ordered sequence of media items. Each item
carries a status pair: a series status and a user status. Building the list
does four things:

- it keeps the items, in order, as the list contents;
- it builds `hashmap`, a table from each item's hash to the item, where a later
  item with the same hash overwrites an earlier one;
- it creates eight category buckets (`category_lists`), one per series status
  (`Started`, `Finished`, `Planned`) and one per user status (`Watching`,
  `Completed`, `Onhold`, `Dropped`, `Planned`);
- for each item it appends the item's hash to the bucket of its series status,
  then to the bucket of its user status. A status that is not one of the
  eight keys makes the dictionary lookup raise `KeyError`, and construction
  fails.

Each category view (`started`, …, `plantoenjoy`) is a lazy property. On first
read, `_processlist` rewrites the bucket in place, replacing each hash with
the table entry for it. The rewritten list is then stored on the instance,
so later reads return the same value without recomputing.

Files:

- `status.dfy` (module `Status`): the `Series` and `User` enumerations as
  datatypes. Each has a total code function and a partial inverse.
- `abstractions.dfy` (module `Abstractions`): the item, status and category
  datatypes. It also holds the specification functions (`Select`, which items
  bucket `c` receives; `HashMapOf`, the hash table; `ViewOf`, the view of a
  category), the lemmas about them, and the class `MediaList`.
- `wrappers.dfy` (module `Wrappers`): `Option` and `Result`.

In `MediaList`, `items` and `hash` are constants. `hashmap` is a map field.
`buckets` is a map from category to a sequence of slots. A slot holds a hash
before the view is read and the item afterwards, which models the in-place
rewrite. `cache` holds the values that the lazy properties store on the
instance. A ghost counter, `getterRuns`, records how often each getter ran.
`Valid()` ties all of these to the specification functions. It also states
that a stored view and its rewritten bucket are equal as values. In the
source they are one and the same list object; the model does not capture
that aliasing (see "Left out").

Modelling decisions:

- Python's `hash` becomes the class constant `hash: Media -> int`. It can be
  any total function, so it is deterministic, but it is not assumed to be
  injective. When two different items share a hash, the view holds the
  *last* of them in both places (`ViewResolvesToLastWithSameHash`). Only
  when hashes are injective is a view exactly the selected items
  (`ViewIsSelectionWhenHashIsInjective`).
- A value in a status slot is either one of the eight keys (`Known`) or
  something else (`Unknown`). `category_lists` is one dictionary holding all
  eight keys. So a *user* status stored in the series slot is accepted and
  lands in a user bucket. The two partition lemmas therefore assume each
  slot holds a key of its own axis (`WellAxed`). The general lemma
  `EveryItemIndexedTwice` assumes only that construction succeeded.
- `Abstractions.py:2` imports `SeriesStatus` and `UserStatus`, and line 34 and
  line 101 use `UserStatus.Plantoenjoy`. `Status.py` defines `Series` and
  `User`, and its code-6 member is `User.Planned`. The model follows
  `Status.py`. The `plantoenjoy` accessor is keyed by `User.Planned`.
- `__init__` is split in three. The constructor does lines 20-34. `Add`
  indexes one item (lines 37-44). The static method `New` runs the loop and
  turns the first `KeyError` into `Failure`. The half-built object is never
  returned, just as a raising `__init__` leaves no object behind.
- The source raises a bare `KeyError` carrying the missing key. The model's
  `MissingKey` also records which lookup raised (series or user).

## Model

| member | source | states |
|---|---|---|
| `Status.SeriesCode` | Pymoe/Mal/Status.py:2-5 | every series member has one of the codes 1, 2, 3 |
| `Status.SeriesOfCode` | Pymoe/Mal/Status.py:2-5 | a code names a series member exactly when it is 1, 2 or 3, and then that member's code is the given code |
| `Status.UserCode` | Pymoe/Mal/Status.py:7-12 | every user member has one of the codes 1, 2, 3, 4, 6 |
| `Status.UserOfCode` | Pymoe/Mal/Status.py:7-12 | a code names a user member exactly when it is 1, 2, 3, 4 or 6 (not 5), and then that member's code is the given code |
| `Status.SeriesMembers` | Pymoe/Mal/Status.py:2-5 | `Series` has exactly three members |
| `Status.UserMembers` | Pymoe/Mal/Status.py:7-12 | `User` has exactly five members, and no member has code 5 |
| `Status.SeriesCodeRoundTrip` | Pymoe/Mal/Status.py:2-5 | member to code and back returns the member |
| `Status.UserCodeRoundTrip` | Pymoe/Mal/Status.py:7-12 | member to code and back returns the member |
| `Status.SeriesCodeInjective` | Pymoe/Mal/Status.py:2-5 | distinct series members have distinct codes |
| `Status.UserCodeInjective` | Pymoe/Mal/Status.py:7-12 | distinct user members have distinct codes |
| `Abstractions.CategoryKeysAreTheCategories` | Pymoe/Mal/Abstractions.py:26-34 | `category_lists` has eight pairwise distinct keys, and every category is one of them |
| `Abstractions.SeriesAndUserKeysDiffer` | Pymoe/Mal/Abstractions.py:27-34 | a series key never equals a user key, even for `Planned`/`Planned` or for the two members with code 1 |
| `Abstractions.CheckStatus` | Pymoe/Mal/Abstractions.py:42-44 | indexing an item fails exactly when one of its statuses is not a key; the series lookup is tried first, and the error carries the missing value |
| `Abstractions.FirstError` | Pymoe/Mal/Abstractions.py:36-44 | construction succeeds exactly when every item's two statuses are keys |
| `Abstractions.FirstErrorIsFirstFailure` | Pymoe/Mal/Abstractions.py:36-44 | a failed construction reports the first failing item's missing series key, or else its missing user key |
| `Abstractions.Select` | Pymoe/Mal/Abstractions.py:36-44 | reference definition: the items whose hashes bucket `c` receives, in append order, each item once per status slot holding `c`; its properties are the lemmas `SelectedItemsBelong`, `SelectKeepsInputOrder` and the two partition lemmas |
| `Abstractions.Appended` | Pymoe/Mal/Abstractions.py:42-44 | one item's appends to bucket `c`: at most two slots, each the item's hash, and nothing at all when the series lookup raises, because that happens before the user append |
| `Abstractions.HashMapOf` | Pymoe/Mal/Abstractions.py:36-39 | the table's keys are exactly the hashes of the input items, and each entry is an input item whose hash is its key |
| `Abstractions.LastWithHash` | Pymoe/Mal/Abstractions.py:36-39 | reference definition: the position of the last input item with a given hash |
| `Abstractions.HashMapLastWins` | Pymoe/Mal/Abstractions.py:36-39 | `hashmap[h]` is the last input item whose hash is `h` |
| `Abstractions.ItemIsOwnEntryWhenHashIsUnique` | Pymoe/Mal/Abstractions.py:36-39 | an item whose hash no later item shares is its own table entry |
| `Abstractions.SelectedItemsBelong` | Pymoe/Mal/Abstractions.py:36-44 | every item a bucket receives is an input item of that bucket's category |
| `Abstractions.SelectedHashesAreKeys` | Pymoe/Mal/Abstractions.py:36-44 | every hash stored in a bucket is a key of `hashmap`, so resolving a bucket cannot fail |
| `Abstractions.SeriesBucketsPartition` | Pymoe/Mal/Abstractions.py:36-42 | with well-axed statuses, the three series buckets together hold each input item exactly once (multiset equality), so their lengths sum to the input length |
| `Abstractions.UserBucketsPartition` | Pymoe/Mal/Abstractions.py:36-44 | with well-axed statuses, the five user buckets together hold each input item exactly once, so their lengths sum to the input length |
| `Abstractions.EveryItemIndexedTwice` | Pymoe/Mal/Abstractions.py:36-44 | after a successful construction, the eight bucket lengths sum to twice the input length |
| `Abstractions.PositionsAscending` | Pymoe/Mal/Abstractions.py:36-44 | reference definition: `Positions` lists exactly the input positions of a category's items, in strictly ascending order |
| `Abstractions.SelectKeepsInputOrder` | Pymoe/Mal/Abstractions.py:36-44 | with well-axed statuses, a bucket is the category's items in their original relative order: the items at strictly ascending input positions, with none missing |
| `Abstractions.ViewOf` | Pymoe/Mal/Abstractions.py:63-67 | reference definition of what `_processlist` returns on a pending bucket: one element per bucket slot, each an input item with the same hash as the slot |
| `Abstractions.ViewResolvesToLastWithSameHash` | Pymoe/Mal/Abstractions.py:63-67 | element `k` of a view is the last input item whose hash equals that of the bucket's `k`-th item |
| `Abstractions.ViewIsSelectionWhenHashIsInjective` | Pymoe/Mal/Abstractions.py:63-67 | when different items have different hashes, a view equals the category's items in input order |
| `Abstractions.EmptyListHasEmptyViews` | Pymoe/Mal/Abstractions.py:20-44 | an empty input builds successfully, and every view is empty |
| `Abstractions.ThreeRecordExample` | Pymoe/Mal/Abstractions.py:36-44 | for items A (finished, completed), B (started, watching) and C (finished, dropped) with distinct hashes, the eight views are [A, C], [B], [], [A], [B], [C], [] and [] |
| `Abstractions.MediaList.Valid` | Pymoe/Mal/Abstractions.py:12-67 | state invariant of a built list: the table is that of the input, an unread bucket holds the hashes of its selection, a read bucket holds the stored view, which is the category's view; its contract gives that the table's keys are exactly the input hashes |
| `Abstractions.MediaList.constructor` | Pymoe/Mal/Abstractions.py:20-34 | keeps the items, starts with an empty table, and creates eight empty buckets with no stored views |
| `Abstractions.MediaList.Add` | Pymoe/Mal/Abstractions.py:37-44 | writes the item under its hash, then appends the hash to its series bucket and then its user bucket, stopping with the `KeyError` of the first lookup that fails |
| `Abstractions.MediaList.New` | Pymoe/Mal/Abstractions.py:20-44 | fails exactly when some item has a status that is not a key, and then with the first such error; otherwise returns a fresh, valid list with the given items and no views read |
| `Abstractions.MediaList.ProcessList` | Pymoe/Mal/Abstractions.py:63-67 | keeps the bucket's length and order, replaces element `i` with `hashmap[bucket[i]]` in place, returns the rewritten list, and changes no other bucket |
| `Abstractions.MediaList.View` | Pymoe/Mal/Abstractions.py:12-17 | the first read runs the getter once and stores its result; later reads return the stored value and change nothing; the result is always the category's view; no other bucket is touched |
| `Abstractions.MediaList.Started` | Pymoe/Mal/Abstractions.py:70-72 | returns and stores the view of series status `Started` |
| `Abstractions.MediaList.Finished` | Pymoe/Mal/Abstractions.py:74-76 | returns and stores the view of series status `Finished` |
| `Abstractions.MediaList.Planned` | Pymoe/Mal/Abstractions.py:78-80 | returns and stores the view of series status `Planned` |
| `Abstractions.MediaList.Watching` | Pymoe/Mal/Abstractions.py:83-85 | returns and stores the view of user status `Watching` |
| `Abstractions.MediaList.Completed` | Pymoe/Mal/Abstractions.py:87-89 | returns and stores the view of user status `Completed` |
| `Abstractions.MediaList.Onhold` | Pymoe/Mal/Abstractions.py:91-93 | returns and stores the view of user status `Onhold` |
| `Abstractions.MediaList.Dropped` | Pymoe/Mal/Abstractions.py:95-97 | returns and stores the view of user status `Dropped` |
| `Abstractions.MediaList.Plantoenjoy` | Pymoe/Mal/Abstractions.py:99-101 | returns and stores the view of the user status with code 6 (`User.Planned`) |

## Left out

- The value holders `NT_EPISODES`, `NT_SCORES`, `NT_DATES`, `NT_DATE_OBJ`, `NT_STORAGE`, `NT_REWATCHED` and `NT_FLAGS`, and their `__repr__` methods (Abstractions.py:103-198). They only assign fields and format strings. `NT_STATUS` is kept as `StatusPair`.
- The namedtuples `NT_ANIME`, `NT_MANGA`, `NT_TYPEDATA` and `NT_STATS` (Abstractions.py:201-214). They bundle network-call handles and statistics slots.
- The commented-out mutation stubs (Abstractions.py:46-61). They are not live code.
- Python's built-in `hash`. It is a parameter of the model: any deterministic function from an item to an integer.
- The list methods `MediaList` inherits from Python's `list` (append, delete, slice assignment). These can change the contents after construction without updating the table or the buckets. The model's item sequence is fixed after construction.
- Reading a lazy property on the class rather than on an instance (Abstractions.py:13-14), which returns `None`. This is descriptor machinery only.
- The import failure. Abstractions.py:2 imports `SeriesStatus` and `UserStatus`, names that Status.py does not define. As written, importing the module fails. The model uses the names `Series` and `User` that Status.py does define.
- MediaList.ProcessList: requires every bucket element to be a hash present in `hashmap`. On any other list, the source raises `KeyError` partway through. Its only callers are the lazy getters, which call it once per bucket on a built list. There, `SelectedHashesAreKeys` shows the requirement always holds.
- MediaList.Add: the partial update left after a failed lookup (the table entry, and the series append when the user lookup fails) is stated in `Add`'s contract. It is not visible after `New`, which discards the object, just as a raising `__init__` does.
- Aliasing of the returned views. `_processlist` returns the bucket list object itself (Abstractions.py:63-67), and `__get__` stores that same object on the instance (Abstractions.py:16). A caller that mutates a returned view, for example by appending to `started`, therefore also changes the bucket and every later read of that view. The model returns views as immutable sequences and keeps the stored view and the bucket equal as values, so that mutation through the alias is not modelled.
- MediaList.New: takes the input as a sequence, which can be read any number of times. The source reads its argument twice, once in `super().__init__(medialist)` (Abstractions.py:21) and again in `for item in medialist` (Abstractions.py:36). With a one-shot iterable such as a generator, the list gets the items but the table and all eight buckets stay empty, so every view is empty. That behaviour is not modelled.
- Concurrent readers and locking. The source is single-threaded and has no synchronisation.

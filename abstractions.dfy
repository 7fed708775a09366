/**
  The categorised media list of Pymoe/Mal/Abstractions.py.

  A `MediaList` holds a user's whole anime or manga list, a table from each
  item's hash to the item, and eight category buckets (three series
  statuses, five user statuses) holding the hashes of the items in that
  category in list order. Each category view is computed on first read by
  rewriting its bucket in place, hash by hash, into the items themselves, and
  the result is kept on the instance so later reads return it unchanged.

  The first half of the module gives the specification of what the list
  builds (functions over the input sequence); the class `MediaList` is the
  imperative model, proved against those functions.
 */
module Abstractions {
  import opened Wrappers
  import opened Status

  // ---------------------------------------------------------------------
  // Data model
  // ---------------------------------------------------------------------

  /** A key of `category_lists`. A series key never equals a user key, even
      when names (`Planned`) or codes (1) coincide. */
  datatype Category = SeriesKey(series: Series) | UserKey(user: User)

  /** The eight keys of `category_lists`, in the order they are created. */
  const CategoryKeys: seq<Category> := [
    SeriesKey(Series.Started), SeriesKey(Series.Finished), SeriesKey(Series.Planned),
    UserKey(User.Watching), UserKey(User.Completed), UserKey(User.Onhold),
    UserKey(User.Dropped), UserKey(User.Planned)
  ]

  /** A value found in a status slot: one of the eight keys, or any other
      value (identified here by an integer), which is not a key. */
  datatype StatusValue = Known(key: Category) | Unknown(raw: int)

  /** NT_STATUS: the series status and the user status of one item. */
  datatype StatusPair = StatusPair(series: StatusValue, user: StatusValue)

  /** A media item; `details` stands for the record's other fields. */
  datatype Media = Media(details: string, status: StatusPair)

  /** Which of the two dictionary lookups raised. */
  datatype Axis = SeriesAxis | UserAxis

  /** The KeyError raised while building the list, with the missing key. */
  datatype LookupError = MissingKey(axis: Axis, value: StatusValue)

  /** An element of a bucket: a hash before the view is materialised, the
      item itself afterwards. */
  datatype Slot = Hashed(key: int) | Resolved(media: Media)

  // ---------------------------------------------------------------------
  // Status classification
  // ---------------------------------------------------------------------

  /** Both lookups of an item's statuses in `category_lists` succeed. */
  predicate Recognized(s: StatusPair) {
    s.series.Known? && s.user.Known?
  }

  /** The series slot holds a series key and the user slot a user key. */
  predicate WellAxed(s: StatusPair) {
    && s.series.Known? && s.series.key.SeriesKey?
    && s.user.Known? && s.user.key.UserKey?
  }

  /** The item is appended to bucket `c` by at least one of the two lookups. */
  predicate InCategory(x: Media, c: Category) {
    x.status.series == Known(c) || x.status.user == Known(c)
  }

  /** The error, if any, of indexing one item: the series lookup is tried
      first, then the user lookup. */
  function CheckStatus(s: StatusPair): (r: Option<LookupError>)
    ensures r.None? <==> Recognized(s)
    ensures r.Some? && r.value.axis == SeriesAxis ==> r.value.value == s.series && s.series.Unknown?
    ensures r.Some? && r.value.axis == UserAxis ==> r.value.value == s.user && s.series.Known? && s.user.Unknown?
  {
    if s.series.Unknown? then Some(MissingKey(SeriesAxis, s.series))
    else if s.user.Unknown? then Some(MissingKey(UserAxis, s.user))
    else None
  }

  /** The error that stops construction: that of the first item whose
      statuses are not both keys. */
  function FirstError(items: seq<Media>): (r: Option<LookupError>)
    ensures r.None? <==> forall k :: 0 <= k < |items| ==> Recognized(items[k].status)
    decreases |items|
  {
    if items == [] then None
    else
      var p, x := items[..|items| - 1], items[|items| - 1];
      assert forall j :: 0 <= j < |p| ==> p[j] == items[j];
      if FirstError(p).Some? then FirstError(p) else CheckStatus(x.status)
  }

  // ---------------------------------------------------------------------
  // What the buckets hold
  // ---------------------------------------------------------------------

  /** What indexing one item appends to bucket `c`: the item once for each
      of its two statuses that is the key `c`. */
  function Contribution(x: Media, c: Category): seq<Media> {
    (if x.status.series == Known(c) then [x] else []) + (if x.status.user == Known(c) then [x] else [])
  }

  /** The items whose hashes bucket `c` receives, in the order they are
      appended while the input is scanned. */
  function Select(items: seq<Media>, c: Category): (r: seq<Media>)
    decreases |items|
  {
    if items == [] then []
    else Select(items[..|items| - 1], c) + Contribution(items[|items| - 1], c)
  }

  /** An item contributes only itself, and only to its own categories. */
  lemma ContributionIsTheItem(x: Media, c: Category)
    ensures |Contribution(x, c)| <= 2
    ensures forall j :: 0 <= j < |Contribution(x, c)| ==> Contribution(x, c)[j] == x && InCategory(x, c)
  {
    var d := Contribution(x, c);
    if d != [] {
      assert InCategory(x, c);
    }
    forall j | 0 <= j < |d| ensures d[j] == x {
      if x.status.series == Known(c) && j == 0 {
        assert d[j] == [x][0];
      }
    }
  }

  /** Every item a bucket receives is an input item of that category. */
  lemma {:induction false} SelectedItemsBelong(items: seq<Media>, c: Category)
    ensures forall k :: 0 <= k < |Select(items, c)| ==> Select(items, c)[k] in items && InCategory(Select(items, c)[k], c)
    decreases |items|
  {
    if items != [] {
      var p, x := items[..|items| - 1], items[|items| - 1];
      assert items == p + [x];
      SelectedItemsBelong(p, c);
      var sel, q, d := Select(items, c), Select(p, c), Contribution(x, c);
      assert sel == q + d;
      ContributionIsTheItem(x, c);
      forall k | 0 <= k < |sel| ensures sel[k] in items && InCategory(sel[k], c) {
        if k < |q| {
          assert sel[k] == q[k];
          assert q[k] in p && InCategory(q[k], c);
        } else {
          assert sel[k] == d[k - |q|];
        }
      }
    }
  }

  /** Every hash a bucket receives is a key of the hash table. */
  lemma SelectedHashesAreKeys(hash: Media -> int, items: seq<Media>, c: Category)
    ensures forall k :: 0 <= k < |Select(items, c)| ==> hash(Select(items, c)[k]) in HashMapOf(hash, items)
  {
    var sel := Select(items, c);
    SelectedItemsBelong(items, c);
    forall k | 0 <= k < |sel| ensures hash(sel[k]) in HashKeys(hash, items) {
      assert sel[k] in items;
    }
  }

  /** The input positions whose item belongs to category `c`, ascending: an
      index-based reference for `Select`. */
  function Positions(items: seq<Media>, c: Category): seq<nat>
    decreases |items|
  {
    if items == [] then []
    else Positions(items[..|items| - 1], c) + (if InCategory(items[|items| - 1], c) then [|items| - 1] else [])
  }

  /** A bucket before its view is read: the hashes of its items. */
  function Pending(hash: Media -> int, s: seq<Media>): seq<Slot> {
    seq(|s|, k requires 0 <= k < |s| => Hashed(hash(s[k])))
  }

  /** A bucket after its view is read: the items themselves. */
  function Materialized(ms: seq<Media>): seq<Slot> {
    seq(|ms|, k requires 0 <= k < |ms| => Resolved(ms[k]))
  }

  /** The items of a fully rewritten bucket. */
  function Payloads(slots: seq<Slot>): seq<Media>
    requires forall k :: 0 <= k < |slots| ==> slots[k].Resolved?
  {
    seq(|slots|, k requires 0 <= k < |slots| => slots[k].media)
  }

  /** What indexing an item with statuses `s` appends to bucket `c`: the
      series lookup happens first and raises before the user append. */
  function Appended(s: StatusPair, c: Category, h: int): (r: seq<Slot>)
    ensures |r| <= 2 && forall k :: 0 <= k < |r| ==> r[k] == Hashed(h)
    ensures s.series.Unknown? ==> r == []
  {
    (if s.series == Known(c) then [Hashed(h)] else [])
      + (if s.series.Known? && s.user == Known(c) then [Hashed(h)] else [])
  }

  // ---------------------------------------------------------------------
  // The hash table
  // ---------------------------------------------------------------------

  function HashKeys(hash: Media -> int, items: seq<Media>): set<int> {
    set x | x in items :: hash(x)
  }

  /** `hashmap` after the whole input is scanned: each item written under
      its hash, a later item overwriting an earlier one. */
  function HashMapOf(hash: Media -> int, items: seq<Media>): (r: map<int, Media>)
    ensures r.Keys == HashKeys(hash, items)
    ensures forall h :: h in r ==> hash(r[h]) == h && r[h] in items
    decreases |items|
  {
    if items == [] then map[]
    else
      var p, x := items[..|items| - 1], items[|items| - 1];
      assert items == p + [x];
      HashMapOf(hash, p)[hash(x) := x]
  }

  /** The position of the last item whose hash is `h`. */
  function LastWithHash(hash: Media -> int, items: seq<Media>, h: int): (i: nat)
    requires h in HashKeys(hash, items)
    ensures i < |items| && hash(items[i]) == h
    ensures forall j :: i < j < |items| ==> hash(items[j]) != h
    decreases |items|
  {
    var p, x := items[..|items| - 1], items[|items| - 1];
    assert items == p + [x];
    if hash(x) == h then |items| - 1
    else
      assert h in HashKeys(hash, p);
      LastWithHash(hash, p, h)
  }

  /** The view of category `c`: every hash of its bucket looked up in the
      hash table, in bucket order. */
  function ViewOf(hash: Media -> int, items: seq<Media>, c: Category): (r: seq<Media>)
    ensures |r| == |Select(items, c)|
    ensures forall k :: 0 <= k < |r| ==> hash(r[k]) == hash(Select(items, c)[k]) && r[k] in items
  {
    var sel, table := Select(items, c), HashMapOf(hash, items);
    SelectedHashesAreKeys(hash, items, c);
    seq(|sel|, k requires 0 <= k < |sel| => table[hash(sel[k])])
  }

  // ---------------------------------------------------------------------
  // Lemmas about the specification
  // ---------------------------------------------------------------------

  /** The eight keys are pairwise distinct and every category is one of them. */
  lemma CategoryKeysAreTheCategories()
    ensures |CategoryKeys| == 8
    ensures forall i, j :: 0 <= i < j < |CategoryKeys| ==> CategoryKeys[i] != CategoryKeys[j]
    ensures forall c: Category :: c in CategoryKeys
  {
    forall c: Category ensures c in CategoryKeys {
      match c {
        case SeriesKey(s) =>
          match s {
            case Started => assert c == CategoryKeys[0];
            case Finished => assert c == CategoryKeys[1];
            case Planned => assert c == CategoryKeys[2];
          }
        case UserKey(u) =>
          match u {
            case Watching => assert c == CategoryKeys[3];
            case Completed => assert c == CategoryKeys[4];
            case Onhold => assert c == CategoryKeys[5];
            case Dropped => assert c == CategoryKeys[6];
            case Planned => assert c == CategoryKeys[7];
          }
      }
    }
  }

  /** A series key and a user key are different buckets, even the two
      `Planned` keys and the two keys that share code 1. */
  lemma SeriesAndUserKeysDiffer(s: Series, u: User)
    ensures SeriesKey(s) != UserKey(u)
    ensures SeriesCode(Series.Started) == UserCode(User.Watching) && SeriesKey(Series.Started) != UserKey(User.Watching)
  {
  }

  /** `hashmap[h]` is the last input item whose hash is `h`. */
  lemma {:induction false} HashMapLastWins(hash: Media -> int, items: seq<Media>, h: int)
    requires h in HashKeys(hash, items)
    ensures HashMapOf(hash, items)[h] == items[LastWithHash(hash, items, h)]
    decreases |items|
  {
    var p, x := items[..|items| - 1], items[|items| - 1];
    assert items == p + [x];
    if hash(x) != h {
      assert h in HashKeys(hash, p);
      HashMapLastWins(hash, p, h);
    }
  }

  /** An item whose hash no later item shares is its own table entry. */
  lemma ItemIsOwnEntryWhenHashIsUnique(hash: Media -> int, items: seq<Media>, i: nat)
    requires i < |items|
    requires forall j :: i < j < |items| ==> hash(items[j]) != hash(items[i])
    ensures HashMapOf(hash, items)[hash(items[i])] == items[i]
  {
    HashMapLastWins(hash, items, hash(items[i]));
  }

  /** Each element of a view is the last input item with the same hash as
      the corresponding selected item. */
  lemma ViewResolvesToLastWithSameHash(hash: Media -> int, items: seq<Media>, c: Category, k: nat)
    requires k < |Select(items, c)|
    ensures |ViewOf(hash, items, c)| == |Select(items, c)|
    ensures var sel := Select(items, c);
            && hash(sel[k]) in HashKeys(hash, items)
            && ViewOf(hash, items, c)[k] == items[LastWithHash(hash, items, hash(sel[k]))]
            && hash(ViewOf(hash, items, c)[k]) == hash(sel[k])
  {
    var sel := Select(items, c);
    SelectedHashesAreKeys(hash, items, c);
    HashMapLastWins(hash, items, hash(sel[k]));
  }

  /** When no two different items share a hash, a view is exactly the
      selected items. */
  lemma ViewIsSelectionWhenHashIsInjective(hash: Media -> int, items: seq<Media>, c: Category)
    requires forall i, j :: 0 <= i < |items| && 0 <= j < |items| && hash(items[i]) == hash(items[j]) ==> items[i] == items[j]
    ensures ViewOf(hash, items, c) == Select(items, c)
  {
    var sel := Select(items, c);
    SelectedItemsBelong(items, c);
    forall k | 0 <= k < |sel| ensures ViewOf(hash, items, c)[k] == sel[k] {
      ViewResolvesToLastWithSameHash(hash, items, c, k);
      var j :| 0 <= j < |items| && items[j] == sel[k];
      var l := LastWithHash(hash, items, hash(sel[k]));
      assert hash(items[l]) == hash(items[j]);
    }
  }

  /** Under well-axed statuses an item contributes to bucket `c` exactly when
      it belongs to `c`, and then once. */
  lemma ContributionOfWellAxed(x: Media, c: Category)
    requires WellAxed(x.status)
    ensures Contribution(x, c) == if InCategory(x, c) then [x] else []
  {
  }

  /** Scanning one more item appends its contribution to every bucket. */
  lemma SelectSnoc(items: seq<Media>, x: Media, c: Category)
    ensures Select(items + [x], c) == Select(items, c) + Contribution(x, c)
  {
    assert (items + [x])[..|items|] == items;
  }

  /** A well-axed item contributes itself to exactly one series bucket. */
  lemma SeriesContributions(x: Media)
    requires WellAxed(x.status)
    ensures multiset(Contribution(x, SeriesKey(Series.Started)))
            + multiset(Contribution(x, SeriesKey(Series.Finished)))
            + multiset(Contribution(x, SeriesKey(Series.Planned))) == multiset{x}
  {
    match x.status.series.key.series
    case Started =>
    case Finished =>
    case Planned =>
  }

  /** A well-axed item contributes itself to exactly one user bucket. */
  lemma UserContributions(x: Media)
    requires WellAxed(x.status)
    ensures multiset(Contribution(x, UserKey(User.Watching)))
            + multiset(Contribution(x, UserKey(User.Completed)))
            + multiset(Contribution(x, UserKey(User.Onhold)))
            + multiset(Contribution(x, UserKey(User.Dropped)))
            + multiset(Contribution(x, UserKey(User.Planned))) == multiset{x}
  {
    match x.status.user.key.user
    case Watching =>
    case Completed =>
    case Onhold =>
    case Dropped =>
    case Planned =>
  }

  /** Whether the status value `v` is the key `c`, as a count. */
  function Hits(v: StatusValue, c: Category): nat {
    if v == Known(c) then 1 else 0
  }

  /** A status value that is a key is exactly one of the eight keys. */
  lemma KeyHitsOnce(v: StatusValue)
    requires v.Known?
    ensures Hits(v, SeriesKey(Series.Started)) + Hits(v, SeriesKey(Series.Finished))
            + Hits(v, SeriesKey(Series.Planned)) + Hits(v, UserKey(User.Watching))
            + Hits(v, UserKey(User.Completed)) + Hits(v, UserKey(User.Onhold))
            + Hits(v, UserKey(User.Dropped)) + Hits(v, UserKey(User.Planned)) == 1
  {
    match v.key {
      case SeriesKey(s) =>
        match s {
          case Started =>
          case Finished =>
          case Planned =>
        }
      case UserKey(u) =>
        match u {
          case Watching =>
          case Completed =>
          case Onhold =>
          case Dropped =>
          case Planned =>
        }
    }
  }

  /** An item whose two statuses are keys is appended twice over the eight buckets. */
  lemma RecognizedContributions(x: Media)
    requires Recognized(x.status)
    ensures |Contribution(x, SeriesKey(Series.Started))| + |Contribution(x, SeriesKey(Series.Finished))|
            + |Contribution(x, SeriesKey(Series.Planned))| + |Contribution(x, UserKey(User.Watching))|
            + |Contribution(x, UserKey(User.Completed))| + |Contribution(x, UserKey(User.Onhold))|
            + |Contribution(x, UserKey(User.Dropped))| + |Contribution(x, UserKey(User.Planned))| == 2
  {
    KeyHitsOnce(x.status.series);
    KeyHitsOnce(x.status.user);
    forall c ensures |Contribution(x, c)| == Hits(x.status.series, c) + Hits(x.status.user, c) {
    }
  }

  /** The three series buckets partition the input: every item lands in
      exactly one of them. */
  lemma {:induction false} SeriesBucketsPartition(items: seq<Media>)
    requires forall k :: 0 <= k < |items| ==> WellAxed(items[k].status)
    ensures multiset(Select(items, SeriesKey(Series.Started)))
            + multiset(Select(items, SeriesKey(Series.Finished)))
            + multiset(Select(items, SeriesKey(Series.Planned))) == multiset(items)
    ensures |Select(items, SeriesKey(Series.Started))|
            + |Select(items, SeriesKey(Series.Finished))|
            + |Select(items, SeriesKey(Series.Planned))| == |items|
    decreases |items|
  {
    if items != [] {
      var p, x := items[..|items| - 1], items[|items| - 1];
      assert items == p + [x];
      SeriesBucketsPartition(p);
      SeriesContributions(x);
      var st, fi, pl := SeriesKey(Series.Started), SeriesKey(Series.Finished), SeriesKey(Series.Planned);
      SelectSnoc(p, x, st);
      SelectSnoc(p, x, fi);
      SelectSnoc(p, x, pl);
      calc {
        multiset(Select(items, st)) + multiset(Select(items, fi)) + multiset(Select(items, pl));
        (multiset(Select(p, st)) + multiset(Select(p, fi)) + multiset(Select(p, pl)))
        + (multiset(Contribution(x, st)) + multiset(Contribution(x, fi)) + multiset(Contribution(x, pl)));
        multiset(p) + multiset{x};
      }
    }
  }

  /** The five user buckets partition the input: every item lands in
      exactly one of them. */
  lemma {:induction false} UserBucketsPartition(items: seq<Media>)
    requires forall k :: 0 <= k < |items| ==> WellAxed(items[k].status)
    ensures multiset(Select(items, UserKey(User.Watching)))
            + multiset(Select(items, UserKey(User.Completed)))
            + multiset(Select(items, UserKey(User.Onhold)))
            + multiset(Select(items, UserKey(User.Dropped)))
            + multiset(Select(items, UserKey(User.Planned))) == multiset(items)
    ensures |Select(items, UserKey(User.Watching))|
            + |Select(items, UserKey(User.Completed))|
            + |Select(items, UserKey(User.Onhold))|
            + |Select(items, UserKey(User.Dropped))|
            + |Select(items, UserKey(User.Planned))| == |items|
    decreases |items|
  {
    if items != [] {
      var p, x := items[..|items| - 1], items[|items| - 1];
      assert items == p + [x];
      UserBucketsPartition(p);
      UserContributions(x);
      var w, cm, o, d, pl := UserKey(User.Watching), UserKey(User.Completed), UserKey(User.Onhold),
                             UserKey(User.Dropped), UserKey(User.Planned);
      SelectSnoc(p, x, w);
      SelectSnoc(p, x, cm);
      SelectSnoc(p, x, o);
      SelectSnoc(p, x, d);
      SelectSnoc(p, x, pl);
      calc {
        multiset(Select(items, w)) + multiset(Select(items, cm)) + multiset(Select(items, o))
          + multiset(Select(items, d)) + multiset(Select(items, pl));
        (multiset(Select(p, w)) + multiset(Select(p, cm)) + multiset(Select(p, o))
          + multiset(Select(p, d)) + multiset(Select(p, pl)))
        + (multiset(Contribution(x, w)) + multiset(Contribution(x, cm)) + multiset(Contribution(x, o))
          + multiset(Contribution(x, d)) + multiset(Contribution(x, pl)));
        multiset(p) + multiset{x};
      }
    }
  }

  /** Whatever keys the two status slots hold, once both lookups succeed
      every item is appended exactly twice over all eight buckets. */
  lemma {:induction false} EveryItemIndexedTwice(items: seq<Media>)
    requires FirstError(items).None?
    ensures |Select(items, SeriesKey(Series.Started))| + |Select(items, SeriesKey(Series.Finished))|
            + |Select(items, SeriesKey(Series.Planned))| + |Select(items, UserKey(User.Watching))|
            + |Select(items, UserKey(User.Completed))| + |Select(items, UserKey(User.Onhold))|
            + |Select(items, UserKey(User.Dropped))| + |Select(items, UserKey(User.Planned))|
            == 2 * |items|
    decreases |items|
  {
    if items != [] {
      var p, x := items[..|items| - 1], items[|items| - 1];
      assert items == p + [x];
      assert forall k :: 0 <= k < |p| ==> p[k] == items[k];
      EveryItemIndexedTwice(p);
      RecognizedContributions(x);
      forall c ensures |Select(items, c)| == |Select(p, c)| + |Contribution(x, c)| {
        SelectSnoc(p, x, c);
      }
    }
  }

  /** `Positions` lists, in strictly ascending order, exactly the input
      positions whose item belongs to `c`. */
  lemma {:induction false} PositionsAscending(items: seq<Media>, c: Category)
    ensures var pos := Positions(items, c);
            && (forall k :: 0 <= k < |pos| ==> pos[k] < |items| && InCategory(items[pos[k]], c))
            && (forall k, l :: 0 <= k < l < |pos| ==> pos[k] < pos[l])
            && (forall i :: 0 <= i < |items| && InCategory(items[i], c) ==> i in pos)
    decreases |items|
  {
    if items != [] {
      var p := items[..|items| - 1];
      PositionsAscending(p, c);
      assert forall i :: 0 <= i < |p| ==> items[i] == p[i];
    }
  }

  /** Under well-axed statuses, bucket `c` holds the items at `Positions`. */
  lemma {:induction false} SelectAtPositions(items: seq<Media>, c: Category)
    requires forall k :: 0 <= k < |items| ==> WellAxed(items[k].status)
    ensures var sel, pos := Select(items, c), Positions(items, c);
            && |sel| == |pos|
            && (forall k :: 0 <= k < |pos| ==> pos[k] < |items| && sel[k] == items[pos[k]])
    decreases |items|
  {
    if items != [] {
      var p, x := items[..|items| - 1], items[|items| - 1];
      assert forall i :: 0 <= i < |p| ==> items[i] == p[i];
      SelectAtPositions(p, c);
      ContributionOfWellAxed(x, c);
    }
  }

  /** A bucket keeps input order: its items are the items of category `c`
      at strictly ascending input positions, and no such item is missing. */
  lemma SelectKeepsInputOrder(items: seq<Media>, c: Category)
    requires forall k :: 0 <= k < |items| ==> WellAxed(items[k].status)
    ensures var sel, pos := Select(items, c), Positions(items, c);
            && |sel| == |pos|
            && (forall k :: 0 <= k < |pos| ==> pos[k] < |items| && sel[k] == items[pos[k]])
            && (forall k, l :: 0 <= k < l < |pos| ==> pos[k] < pos[l])
            && (forall i :: 0 <= i < |items| && InCategory(items[i], c) ==> i in pos)
  {
    PositionsAscending(items, c);
    SelectAtPositions(items, c);
  }

  /** An empty input builds eight empty buckets and eight empty views. */
  lemma EmptyListHasEmptyViews(hash: Media -> int, c: Category)
    ensures FirstError([]) == None
    ensures Select([], c) == [] && ViewOf(hash, [], c) == []
  {
  }

  /** The view of three items with distinct hashes, category by category. */
  lemma ViewOfThree(hash: Media -> int, a: Media, b: Media, x: Media, c: Category)
    requires hash(a) != hash(b) && hash(b) != hash(x) && hash(a) != hash(x)
    ensures ViewOf(hash, [a, b, x], c) == Contribution(a, c) + Contribution(b, c) + Contribution(x, c)
  {
    var items := [a, b, x];
    assert [a] == [] + [a];
    SelectSnoc([], a, c);
    assert Select([a], c) == Contribution(a, c);
    assert [a, b] == [a] + [b];
    SelectSnoc([a], b, c);
    assert Select([a, b], c) == Contribution(a, c) + Contribution(b, c);
    assert items == [a, b] + [x];
    SelectSnoc([a, b], x, c);
    assert Select(items, c) == Contribution(a, c) + Contribution(b, c) + Contribution(x, c);
    ViewIsSelectionWhenHashIsInjective(hash, items, c);
  }

  /** Three records A (finished, completed), B (started, watching) and
      C (finished, dropped) with distinct hashes. */
  lemma ThreeRecordExample(hash: Media -> int, a: Media, b: Media, x: Media)
    requires a.status == StatusPair(Known(SeriesKey(Series.Finished)), Known(UserKey(User.Completed)))
    requires b.status == StatusPair(Known(SeriesKey(Series.Started)), Known(UserKey(User.Watching)))
    requires x.status == StatusPair(Known(SeriesKey(Series.Finished)), Known(UserKey(User.Dropped)))
    requires hash(a) != hash(b) && hash(b) != hash(x) && hash(a) != hash(x)
    ensures ViewOf(hash, [a, b, x], SeriesKey(Series.Finished)) == [a, x]
    ensures ViewOf(hash, [a, b, x], SeriesKey(Series.Started)) == [b]
    ensures ViewOf(hash, [a, b, x], SeriesKey(Series.Planned)) == []
    ensures ViewOf(hash, [a, b, x], UserKey(User.Completed)) == [a]
    ensures ViewOf(hash, [a, b, x], UserKey(User.Watching)) == [b]
    ensures ViewOf(hash, [a, b, x], UserKey(User.Dropped)) == [x]
    ensures ViewOf(hash, [a, b, x], UserKey(User.Onhold)) == []
    ensures ViewOf(hash, [a, b, x], UserKey(User.Planned)) == []
  {
    ViewOfThree(hash, a, b, x, SeriesKey(Series.Finished));
    assert Contribution(a, SeriesKey(Series.Finished)) == [a];
    assert Contribution(b, SeriesKey(Series.Finished)) == [];
    assert Contribution(x, SeriesKey(Series.Finished)) == [x];
    ViewOfThree(hash, a, b, x, SeriesKey(Series.Started));
    ViewOfThree(hash, a, b, x, SeriesKey(Series.Planned));
    ViewOfThree(hash, a, b, x, UserKey(User.Completed));
    ViewOfThree(hash, a, b, x, UserKey(User.Watching));
    ViewOfThree(hash, a, b, x, UserKey(User.Dropped));
    ViewOfThree(hash, a, b, x, UserKey(User.Onhold));
    ViewOfThree(hash, a, b, x, UserKey(User.Planned));
  }

  // ---------------------------------------------------------------------
  // Helper lemmas for the imperative model
  // ---------------------------------------------------------------------

  lemma PendingAppend(hash: Media -> int, s: seq<Media>, t: seq<Media>)
    ensures Pending(hash, s + t) == Pending(hash, s) + Pending(hash, t)
  {
  }

  /** `Appended` is the pending form of `Contribution` once both statuses are keys. */
  lemma AppendedIsPendingContribution(hash: Media -> int, x: Media, c: Category)
    requires Recognized(x.status)
    ensures Appended(x.status, c, hash(x)) == Pending(hash, Contribution(x, c))
  {
  }

  /** Scanning one more item extends the selections and the table. */
  lemma ScanStep(hash: Media -> int, items: seq<Media>, i: nat, c: Category)
    requires i < |items|
    ensures Select(items[..i + 1], c) == Select(items[..i], c) + Contribution(items[i], c)
    ensures HashMapOf(hash, items[..i + 1]) == HashMapOf(hash, items[..i])[hash(items[i]) := items[i]]
  {
    assert items[..i + 1][..i] == items[..i];
  }

  /** Every hash of a pending bucket is a key of the table. */
  lemma PendingResolves(hash: Media -> int, items: seq<Media>, c: Category)
    ensures forall k :: 0 <= k < |Pending(hash, Select(items, c))| ==>
              Pending(hash, Select(items, c))[k].Hashed? && Pending(hash, Select(items, c))[k].key in HashMapOf(hash, items)
  {
    SelectedHashesAreKeys(hash, items, c);
  }

  /** Looking up each hash of a pending bucket gives the category's view. */
  lemma ProcessedIsView(hash: Media -> int, items: seq<Media>, c: Category, alist: seq<Media>)
    requires var b := Pending(hash, Select(items, c));
             && |alist| == |b|
             && forall k :: 0 <= k < |b| ==> b[k].key in HashMapOf(hash, items) && alist[k] == HashMapOf(hash, items)[b[k].key]
    ensures alist == ViewOf(hash, items, c)
  {
  }

  /** After `i` items are indexed, indexing item `i` leaves bucket `c` as
      the pending form of the selection of the first `i + 1` items. */
  lemma PendingAfterAdd(hash: Media -> int, items: seq<Media>, i: nat, c: Category, before: seq<Slot>, after: seq<Slot>)
    requires i < |items| && Recognized(items[i].status)
    requires before == Pending(hash, Select(items[..i], c))
    requires after == before + Appended(items[i].status, c, hash(items[i]))
    ensures after == Pending(hash, Select(items[..i + 1], c))
  {
    ScanStep(hash, items, i, c);
    AppendedIsPendingContribution(hash, items[i], c);
    PendingAppend(hash, Select(items[..i], c), Contribution(items[i], c));
  }

  /** Once the first `i` items are indexed, the outcome of the first `i + 1`
      is that of item `i`. */
  lemma FirstErrorStep(items: seq<Media>, i: nat)
    requires i < |items| && FirstError(items[..i]).None?
    ensures FirstError(items[..i + 1]) == CheckStatus(items[i].status)
  {
    assert items[..i + 1][..i] == items[..i];
  }

  /** Construction stops at the first failing item. */
  lemma {:induction false} FirstErrorOfPrefix(items: seq<Media>, n: nat)
    requires n <= |items|
    requires FirstError(items[..n]).Some?
    ensures FirstError(items) == FirstError(items[..n])
    decreases |items|
  {
    if n < |items| {
      var p := items[..|items| - 1];
      assert p[..n] == items[..n];
      FirstErrorOfPrefix(p, n);
    } else {
      assert items[..n] == items;
    }
  }

  /** The error of construction is that of the first item whose statuses
      are not both keys: its series key if that one is missing, else its
      user key. */
  lemma FirstErrorIsFirstFailure(items: seq<Media>, i: nat)
    requires i < |items| && !Recognized(items[i].status)
    requires forall j :: 0 <= j < i ==> Recognized(items[j].status)
    ensures FirstError(items) == CheckStatus(items[i].status)
    ensures items[i].status.series.Unknown? ==> FirstError(items) == Some(MissingKey(SeriesAxis, items[i].status.series))
    ensures items[i].status.series.Known? ==> FirstError(items) == Some(MissingKey(UserAxis, items[i].status.user))
  {
    assert FirstError(items[..i]).None?;
    FirstErrorStep(items, i);
    FirstErrorOfPrefix(items, i + 1);
  }

  // ---------------------------------------------------------------------
  // The imperative model
  // ---------------------------------------------------------------------

  class MediaList {
    /** The item hash; any deterministic function, not assumed injective. */
    const hash: Media -> int
    /** The list contents (the instance is itself a list of the items). */
    const items: seq<Media>
    /** `hashmap`: item hash to item. */
    var hashmap: map<int, Media>
    /** `category_lists`: category key to bucket. */
    var buckets: map<Category, seq<Slot>>
    /** The views stored on the instance by the lazy properties. */
    var cache: map<Category, seq<Media>>
    /** How many times each view's getter has run. */
    ghost var getterRuns: map<Category, nat>

    /** The state of a successfully built list, before and after any of its
        views are read. */
    ghost predicate Valid()
      reads this
      ensures Valid() ==> hashmap.Keys == HashKeys(hash, items)
    {
      && FirstError(items).None?
      && hashmap == HashMapOf(hash, items)
      && (forall c: Category :: c in buckets && c in getterRuns)
      && (forall c: Category :: c !in cache ==> buckets[c] == Pending(hash, Select(items, c)) && getterRuns[c] == 0)
      && (forall c :: c in cache ==>
            && cache[c] == ViewOf(hash, items, c)
            && buckets[c] == Materialized(cache[c])
            && getterRuns[c] == 1)
    }

    /** Lines 20-34: keep the items, an empty hash table and eight empty buckets. */
    constructor (hash: Media -> int, medialist: seq<Media>)
      ensures this.hash == hash && items == medialist
      ensures hashmap == map[] && cache == map[]
      ensures forall c: Category :: c in buckets && buckets[c] == [] && c in getterRuns && getterRuns[c] == 0
    {
      this.hash := hash;
      items := medialist;
      hashmap := map[];
      buckets := map[
        SeriesKey(Series.Started) := [], SeriesKey(Series.Finished) := [], SeriesKey(Series.Planned) := [],
        UserKey(User.Watching) := [], UserKey(User.Completed) := [], UserKey(User.Onhold) := [],
        UserKey(User.Dropped) := [], UserKey(User.Planned) := []];
      cache := map[];
      getterRuns := map c | c in CategoryKeys :: 0;
      CategoryKeysAreTheCategories();
    }

    /** Lines 37-44, one item: write it under its hash, then append the hash
        to the bucket of its series status and to that of its user status;
        a status that is not a key raises. */
    method Add(x: Media) returns (err: Option<LookupError>)
      requires forall c: Category :: c in buckets
      modifies this`hashmap, this`buckets
      ensures hashmap == old(hashmap)[hash(x) := x]
      ensures err == CheckStatus(x.status)
      ensures forall c: Category :: c in buckets && buckets[c] == old(buckets[c]) + Appended(x.status, c, hash(x))
    {
      var itemhash := hash(x);
      hashmap := hashmap[hash(x) := x];
      match x.status.series {
        case Unknown(_) =>
          return Some(MissingKey(SeriesAxis, x.status.series));
        case Known(k) =>
          buckets := buckets[k := buckets[k] + [Hashed(itemhash)]];
      }
      match x.status.user {
        case Unknown(_) =>
          return Some(MissingKey(UserAxis, x.status.user));
        case Known(k) =>
          buckets := buckets[k := buckets[k] + [Hashed(itemhash)]];
      }
      return None;
    }

    /** `MediaList(medialist)`: either a built list with no view read yet, or
        the KeyError of the first item whose status is not a key. */
    static method New(hash: Media -> int, medialist: seq<Media>) returns (r: Result<MediaList, LookupError>)
      ensures r.Failure? <==> FirstError(medialist).Some?
      ensures r.Failure? ==> r.error == FirstError(medialist).value
      ensures r.Success? ==> && fresh(r.value) && r.value.Valid()
                             && r.value.hash == hash && r.value.items == medialist && r.value.cache == map[]
    {
      var ml := new MediaList(hash, medialist);
      var i := 0;
      while i < |medialist|
        invariant 0 <= i <= |medialist|
        invariant ml.hash == hash && ml.items == medialist && ml.cache == map[]
        invariant forall c: Category :: c in ml.getterRuns && ml.getterRuns[c] == 0
        invariant FirstError(medialist[..i]).None?
        invariant ml.hashmap == HashMapOf(hash, medialist[..i])
        invariant forall c: Category :: c in ml.buckets && ml.buckets[c] == Pending(hash, Select(medialist[..i], c))
      {
        var x := medialist[i];
        ghost var before := ml.buckets;
        var err := ml.Add(x);
        FirstErrorStep(medialist, i);
        if err.Some? {
          FirstErrorOfPrefix(medialist, i + 1);
          return Failure(err.value);
        }
        forall c: Category ensures ml.buckets[c] == Pending(hash, Select(medialist[..i + 1], c)) {
          PendingAfterAdd(hash, medialist, i, c, before[c], ml.buckets[c]);
        }
        ScanStep(hash, medialist, i, SeriesKey(Series.Started));
        i := i + 1;
      }
      assert medialist[..i] == medialist;
      return Success(ml);
    }

    /** `_processlist` on bucket `c`: overwrite each hash with the item the
        table holds for it, in place, and return the rewritten list. */
    method ProcessList(c: Category) returns (alist: seq<Media>)
      requires c in buckets
      requires forall k :: 0 <= k < |buckets[c]| ==> buckets[c][k].Hashed? && buckets[c][k].key in hashmap
      modifies this`buckets
      ensures |alist| == |old(buckets[c])|
      ensures forall k :: 0 <= k < |alist| ==> alist[k] == hashmap[old(buckets[c])[k].key]
      ensures buckets == old(buckets)[c := Materialized(alist)]
    {
      var i := 0;
      while i < |buckets[c]|
        invariant c in buckets && |buckets[c]| == |old(buckets[c])|
        invariant 0 <= i <= |buckets[c]|
        invariant buckets == old(buckets)[c := buckets[c]]
        invariant forall k :: 0 <= k < i ==> buckets[c][k] == Resolved(hashmap[old(buckets[c])[k].key])
        invariant forall k :: i <= k < |buckets[c]| ==> buckets[c][k] == old(buckets[c])[k]
      {
        var itemhash := buckets[c][i].key;
        buckets := buckets[c := buckets[c][i := Resolved(hashmap[itemhash])]];
        i := i + 1;
      }
      alist := Payloads(buckets[c]);
      assert buckets[c] == Materialized(alist);
    }

    /** A lazy category property: on first read run the getter and store its
        result on the instance; later reads return the stored value. */
    method View(c: Category) returns (r: seq<Media>)
      requires Valid()
      modifies this`buckets, this`cache, this`getterRuns
      ensures Valid()
      ensures r == ViewOf(hash, items, c)
      ensures cache == old(cache)[c := r]
      ensures c in old(cache) ==> r == old(cache)[c] && buckets == old(buckets) && getterRuns == old(getterRuns)
      ensures forall d: Category :: d != c ==> buckets[d] == old(buckets[d]) && getterRuns[d] == old(getterRuns[d])
      ensures getterRuns[c] == 1
    {
      if c in cache {
        return cache[c];
      }
      PendingResolves(hash, items, c);
      r := ProcessList(c);
      ProcessedIsView(hash, items, c, r);
      cache := cache[c := r];
      getterRuns := getterRuns[c := getterRuns[c] + 1];
    }

    /** `started` (lines 70-72). */
    method Started() returns (r: seq<Media>)
      requires Valid()
      modifies this`buckets, this`cache, this`getterRuns
      ensures Valid() && r == ViewOf(hash, items, SeriesKey(Series.Started))
      ensures cache == old(cache)[SeriesKey(Series.Started) := r]
      ensures forall d: Category :: d != SeriesKey(Series.Started) ==> buckets[d] == old(buckets[d])
    {
      r := View(SeriesKey(Series.Started));
    }

    /** `finished` (lines 74-76). */
    method Finished() returns (r: seq<Media>)
      requires Valid()
      modifies this`buckets, this`cache, this`getterRuns
      ensures Valid() && r == ViewOf(hash, items, SeriesKey(Series.Finished))
      ensures cache == old(cache)[SeriesKey(Series.Finished) := r]
      ensures forall d: Category :: d != SeriesKey(Series.Finished) ==> buckets[d] == old(buckets[d])
    {
      r := View(SeriesKey(Series.Finished));
    }

    /** `planned` (lines 78-80). */
    method Planned() returns (r: seq<Media>)
      requires Valid()
      modifies this`buckets, this`cache, this`getterRuns
      ensures Valid() && r == ViewOf(hash, items, SeriesKey(Series.Planned))
      ensures cache == old(cache)[SeriesKey(Series.Planned) := r]
      ensures forall d: Category :: d != SeriesKey(Series.Planned) ==> buckets[d] == old(buckets[d])
    {
      r := View(SeriesKey(Series.Planned));
    }

    /** `watching` (lines 83-85). */
    method Watching() returns (r: seq<Media>)
      requires Valid()
      modifies this`buckets, this`cache, this`getterRuns
      ensures Valid() && r == ViewOf(hash, items, UserKey(User.Watching))
      ensures cache == old(cache)[UserKey(User.Watching) := r]
      ensures forall d: Category :: d != UserKey(User.Watching) ==> buckets[d] == old(buckets[d])
    {
      r := View(UserKey(User.Watching));
    }

    /** `completed` (lines 87-89). */
    method Completed() returns (r: seq<Media>)
      requires Valid()
      modifies this`buckets, this`cache, this`getterRuns
      ensures Valid() && r == ViewOf(hash, items, UserKey(User.Completed))
      ensures cache == old(cache)[UserKey(User.Completed) := r]
      ensures forall d: Category :: d != UserKey(User.Completed) ==> buckets[d] == old(buckets[d])
    {
      r := View(UserKey(User.Completed));
    }

    /** `onhold` (lines 91-93). */
    method Onhold() returns (r: seq<Media>)
      requires Valid()
      modifies this`buckets, this`cache, this`getterRuns
      ensures Valid() && r == ViewOf(hash, items, UserKey(User.Onhold))
      ensures cache == old(cache)[UserKey(User.Onhold) := r]
      ensures forall d: Category :: d != UserKey(User.Onhold) ==> buckets[d] == old(buckets[d])
    {
      r := View(UserKey(User.Onhold));
    }

    /** `dropped` (lines 95-97). */
    method Dropped() returns (r: seq<Media>)
      requires Valid()
      modifies this`buckets, this`cache, this`getterRuns
      ensures Valid() && r == ViewOf(hash, items, UserKey(User.Dropped))
      ensures cache == old(cache)[UserKey(User.Dropped) := r]
      ensures forall d: Category :: d != UserKey(User.Dropped) ==> buckets[d] == old(buckets[d])
    {
      r := View(UserKey(User.Dropped));
    }

    /** `plantoenjoy` (lines 99-101), keyed by the user status with code 6. */
    method Plantoenjoy() returns (r: seq<Media>)
      requires Valid()
      modifies this`buckets, this`cache, this`getterRuns
      ensures Valid() && r == ViewOf(hash, items, UserKey(User.Planned))
      ensures cache == old(cache)[UserKey(User.Planned) := r]
      ensures forall d: Category :: d != UserKey(User.Planned) ==> buckets[d] == old(buckets[d])
    {
      r := View(UserKey(User.Planned));
    }
  }
}

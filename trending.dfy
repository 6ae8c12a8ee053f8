/** The "trending products" block of the storefront's index view: the
    quantities of every stored order are summed per line-item code, the codes
    are ranked by total (highest first, ties in first-seen order), the top six
    are turned into product ids, and the catalogue products with those ids are
    listed in rank order. */
module Trending {

  import opened Wrappers
  import opened Json
  import opened Text
  import opened Seqs

  /** Why the request fails: every one of these is an uncaught exception. */
  datatype Fault =
    | NotJson        // `json.loads` raised (the stored text is not JSON)
    | NotAnObject    // `items.items()` raised: the decoded value is no object
    | BadQuantity    // `details[0]` raised, or could not be added to an int
    | BadProductId   // `int(...)` raised on the id text of a code

  /** One line item as the accumulation sees it: its code and its quantity. */
  type Line = (string, int)

  // ---------------------------------------------------------------------
  // Reading the orders

  /** `details[0]`, added to an integer count. A JSON array whose first
      element is a number gives that number, and `true`/`false` count as
      1/0 as Python's bool does; anything else raises. */
  function Quantity(details: Json): (r: Result<int, Fault>)
    ensures r.Success? ==> details.JArr? && |details.elems| > 0
    ensures details.JArr? && |details.elems| > 0 && details.elems[0].JNum? ==>
              r == Success(details.elems[0].n)
    ensures details.JArr? && |details.elems| > 0 && details.elems[0].JBool? ==>
              r == Success(if details.elems[0].b then 1 else 0)
    ensures !details.JArr? ==> r == Failure(BadQuantity)
  {
    match details
    case JArr(elems) =>
      if elems == [] then Failure(BadQuantity)
      else (match elems[0]
            case JNum(n) => Success(n)
            case JBool(b) => Success(if b then 1 else 0)
            case _ => Failure(BadQuantity))
    case _ => Failure(BadQuantity)
  }

  /** One member `code: details` of a decoded object as a line item. */
  function LineOf<K>(m: (K, Json)): (r: Result<(K, int), Fault>)
    ensures r.Success? ==> r.value.0 == m.0 && Quantity(m.1) == Success(r.value.1)
    ensures r.Failure? ==> Quantity(m.1).Failure?
  {
    match Quantity(m.1)
    case Failure(e) => Failure(e)
    case Success(q) => Success((m.0, q))
  }

  /** The line items of one stored order, in member order, or the fault
      that stops the inner loop. */
  function OrderLines(d: Option<Json>): Result<seq<Line>, Fault>
  {
    match d
    case None => Failure(NotJson)
    case Some(j) => if j.JObj? then MapAll(LineOf, j.members) else Failure(NotAnObject)
  }

  /** The line items of all orders, order after order, or the first fault. */
  function Pairs(orders: seq<Option<Json>>): Result<seq<Line>, Fault>
  {
    match MapAll(OrderLines, orders)
    case Failure(e) => Failure(e)
    case Success(groups) => Success(Flatten(groups))
  }

  // ---------------------------------------------------------------------
  // Accumulating (for any kind of key)

  /** The keys of the lines, in line order. */
  function Codes<K(==)>(lines: seq<(K, int)>): (cs: seq<K>)
    ensures |cs| == |lines|
  {
    if lines == [] then [] else Codes(lines[..|lines| - 1]) + [lines[|lines| - 1].0]
  }

  /** The sum of the quantities of the lines with key c. */
  function Total<K(==)>(lines: seq<(K, int)>, c: K): int
  {
    if lines == [] then 0
    else Total(lines[..|lines| - 1], c) + (if lines[|lines| - 1].0 == c then lines[|lines| - 1].1 else 0)
  }

  /** `product_counts[c] = product_counts.get(c, 0) + q` */
  function Bump<K>(counts: map<K, int>, c: K, q: int): map<K, int>
  {
    counts[c := (if c in counts then counts[c] else 0) + q]
  }

  /** `product_counts` after the lines have been added one by one with
      `product_counts[code] = product_counts.get(code, 0) + quantity`. */
  function Tally<K(==)>(lines: seq<(K, int)>): map<K, int>
  {
    if lines == [] then map[]
    else
      Bump(Tally(lines[..|lines| - 1]), lines[|lines| - 1].0, lines[|lines| - 1].1)
  }

  /** Every key that occurs in some line is counted, no other key is, and
      its count is the sum of its quantities. */
  lemma {:induction false} TallyTotals<K>(lines: seq<(K, int)>)
    ensures forall c :: c in Tally(lines) <==> c in Codes(lines)
    ensures forall c :: c !in Codes(lines) ==> Total(lines, c) == 0
    ensures forall c :: c in Tally(lines) ==> Tally(lines)[c] == Total(lines, c)
  {
    if lines != [] {
      var p := lines[..|lines| - 1];
      TallyTotals(p);
      assert forall c :: c in Codes(lines) <==> c in Codes(p) || c == lines[|lines| - 1].0;
    }
  }

  lemma CodesAppend<K>(lines: seq<(K, int)>, x: (K, int))
    ensures Codes(lines + [x]) == Codes(lines) + [x.0]
  {
    assert (lines + [x])[..|lines|] == lines;
  }

  lemma DedupAppend<T>(s: seq<T>, y: T)
    ensures Dedup(s + [y]) == if y in s then Dedup(s) else Dedup(s) + [y]
  {
    assert (s + [y])[..|s|] == s;
    DedupSpec(s);
  }

  /** Adding one line to the dict: a new key joins the key order at the
      end, a known key keeps its place, and the key's count grows by the
      quantity. */
  lemma AccumulateStep<K>(keys: seq<K>, counts: map<K, int>, lines: seq<(K, int)>, c: K, q: int)
    requires keys == Dedup(Codes(lines)) && counts == Tally(lines)
    ensures (if c in counts then keys else keys + [c]) == Dedup(Codes(lines + [(c, q)]))
    ensures Bump(counts, c, q) == Tally(lines + [(c, q)])
  {
    CodesAppend(lines, (c, q));
    DedupAppend(Codes(lines), c);
    TallyTotals(lines);
    TallyAppend(lines, (c, q));
  }

  lemma TallyAppend<K>(lines: seq<(K, int)>, x: (K, int))
    ensures Tally(lines + [x]) == Bump(Tally(lines), x.0, x.1)
  {
    assert (lines + [x])[..|lines|] == lines;
  }

  /** What the nested loop leaves behind: the dict's keys in insertion
      order and the dict itself, or the first fault. */
  function Accumulated(orders: seq<Option<Json>>): Result<(seq<string>, map<string, int>), Fault>
  {
    match Pairs(orders)
    case Failure(e) => Failure(e)
    case Success(lines) => Success((Dedup(Codes(lines)), Tally(lines)))
  }

  /** The dict after the lines of one more order, or that order's fault. */
  function WithOrder<K>(lines: seq<(K, int)>, more: Result<seq<(K, int)>, Fault>): Result<(seq<K>, map<K, int>), Fault>
  {
    match more
    case Failure(e) => Failure(e)
    case Success(mine) => Success((Dedup(Codes(lines + mine)), Tally(lines + mine)))
  }

  /** The inner loop of abadas/views.py: the members of one decoded object
      are added to the dict in member order. */
  method AddMembers<K(==)>(keys0: seq<K>, counts0: map<K, int>, ghost lines: seq<(K, int)>, ms: seq<(K, Json)>)
    returns (r: Result<(seq<K>, map<K, int>), Fault>)
    requires keys0 == Dedup(Codes(lines)) && counts0 == Tally(lines)
    ensures r == WithOrder(lines, MapAll(LineOf, ms))
  {
    var keys, counts := keys0, counts0;
    ghost var mine: seq<(K, int)> := [];
    assert lines + mine == lines;
    var j := 0;
    while j < |ms|
      invariant 0 <= j <= |ms|
      invariant MapAll(LineOf, ms[..j]) == Success(mine)
      invariant keys == Dedup(Codes(lines + mine)) && counts == Tally(lines + mine)
    {
      var code := ms[j].0;
      var q := Quantity(ms[j].1);
      if q.Failure? {
        MapAllFails(LineOf, ms, j);
        return Failure(q.error);
      }
      AddMemberStep(keys, counts, lines, mine, ms, j, code, q.value);
      keys := if code in counts then keys else keys + [code];
      counts := Bump(counts, code, q.value);
      mine := mine + [(code, q.value)];
      j := j + 1;
    }
    assert ms[..|ms|] == ms;
    return Success((keys, counts));
  }

  /** One step of the inner loop. */
  lemma AddMemberStep<K>(keys: seq<K>, counts: map<K, int>, lines: seq<(K, int)>, mine: seq<(K, int)>,
                         ms: seq<(K, Json)>, j: int, c: K, q: int)
    requires 0 <= j < |ms| && MapAll(LineOf, ms[..j]) == Success(mine)
    requires keys == Dedup(Codes(lines + mine)) && counts == Tally(lines + mine)
    requires c == ms[j].0 && Quantity(ms[j].1) == Success(q)
    ensures MapAll(LineOf, ms[..j + 1]) == Success(mine + [(c, q)])
    ensures (if c in counts then keys else keys + [c]) == Dedup(Codes(lines + (mine + [(c, q)])))
    ensures Bump(counts, c, q) == Tally(lines + (mine + [(c, q)]))
  {
    MapAllStep(LineOf, ms, j, mine);
    AccumulateStep(keys, counts, lines + mine, c, q);
    ConcatAssoc(lines, mine, [(c, q)]);
  }

  /** The per-code accumulation of abadas/views.py, with the dict as a map
      plus the order in which its keys were inserted. */
  method Accumulate(orders: seq<Option<Json>>) returns (r: Result<(seq<string>, map<string, int>), Fault>)
    ensures r == Accumulated(orders)
  {
    var keys: seq<string> := [];
    var counts: map<string, int> := map[];
    ghost var groups: seq<seq<Line>> := [];
    var i := 0;
    while i < |orders|
      invariant 0 <= i <= |orders|
      invariant MapAll(OrderLines, orders[..i]) == Success(groups)
      invariant keys == Dedup(Codes(Flatten(groups))) && counts == Tally(Flatten(groups))
    {
      var d := orders[i];
      if d.None? || !d.value.JObj? {
        MapAllFails(OrderLines, orders, i);
        return Failure(if d.None? then NotJson else NotAnObject);
      }
      var added := AddMembers(keys, counts, Flatten(groups), d.value.members);
      if added.Failure? {
        MapAllFails(OrderLines, orders, i);
        return Failure(added.error);
      }
      ghost var mine := OrderLines(d).value;
      MapAllStep(OrderLines, orders, i, groups);
      GroupsStep(groups, mine);
      keys, counts := added.value.0, added.value.1;
      groups := groups + [mine];
      i := i + 1;
    }
    assert orders[..|orders|] == orders;
    return Success((keys, counts));
  }

  lemma GroupsStep<T>(groups: seq<seq<T>>, mine: seq<T>)
    ensures Flatten(groups + [mine]) == Flatten(groups) + mine
  {
    FlattenStep(groups + [mine], |groups|);
    assert (groups + [mine])[..|groups|] == groups;
  }

  // ---------------------------------------------------------------------
  // Ranking

  /** The count of a code (`product_counts.get`). */
  function Count<K(==)>(counts: map<K, int>, k: K): int
  {
    if k in counts then counts[k] else 0
  }

  predicate NonIncreasing<K(==)>(s: seq<K>, counts: map<K, int>)
  {
    forall i, j :: 0 <= i < j < |s| ==> Count(counts, s[i]) >= Count(counts, s[j])
  }

  /** The codes of s with count v, in the order of s. */
  function WithCount<K(==)>(s: seq<K>, counts: map<K, int>, v: int): seq<K>
  {
    if s == [] then []
    else (if Count(counts, s[0]) == v then [s[0]] else []) + WithCount(s[1..], counts, v)
  }

  /** Places k after every code of s whose count is at least its own. */
  function Insert<K(==)>(k: K, s: seq<K>, counts: map<K, int>): (r: seq<K>)
    ensures |r| == |s| + 1
  {
    if s == [] then [k]
    else if Count(counts, s[0]) >= Count(counts, k) then [s[0]] + Insert(k, s[1..], counts)
    else [k] + s
  }

  /** `sorted(product_counts, key=product_counts.get, reverse=True)`: a
      stable sort, highest count first. */
  function Rank<K(==)>(keys: seq<K>, counts: map<K, int>): (r: seq<K>)
    ensures |r| == |keys|
  {
    if keys == [] then []
    else Insert(keys[|keys| - 1], Rank(keys[..|keys| - 1], counts), counts)
  }

  /** Insert passing the first code of s. */
  lemma InsertCons<K>(k: K, s: seq<K>, counts: map<K, int>)
    requires s != [] && Count(counts, s[0]) >= Count(counts, k)
    ensures Insert(k, s, counts) == [s[0]] + Insert(k, s[1..], counts)
  {
  }

  lemma MultisetHead<K>(s: seq<K>)
    requires s != []
    ensures multiset(s) == multiset{s[0]} + multiset(s[1..])
  {
    assert s == [s[0]] + s[1..];
  }

  lemma MultisetAssoc<K>(a: multiset<K>, b: multiset<K>, c: multiset<K>)
    ensures a + (b + c) == (a + b) + c
  {
  }

  lemma MultisetCons<K>(x: K, s: seq<K>)
    ensures multiset([x] + s) == multiset{x} + multiset(s)
  {
  }

  /** The step of InsertPermutes where k goes further in. */
  lemma InsertPermutesPast<K>(k: K, s: seq<K>, counts: map<K, int>)
    requires s != [] && Count(counts, s[0]) >= Count(counts, k)
    requires multiset(Insert(k, s[1..], counts)) == multiset(s[1..]) + multiset{k}
    ensures multiset(Insert(k, s, counts)) == multiset(s) + multiset{k}
  {
    InsertCons(k, s, counts);
    MultisetCons(s[0], Insert(k, s[1..], counts));
    MultisetHead(s);
    MultisetAssoc(multiset{s[0]}, multiset(s[1..]), multiset{k});
  }

  lemma {:induction false} InsertPermutes<K>(k: K, s: seq<K>, counts: map<K, int>)
    ensures multiset(Insert(k, s, counts)) == multiset(s) + multiset{k}
  {
    if s != [] && Count(counts, s[0]) >= Count(counts, k) {
      InsertPermutes(k, s[1..], counts);
      InsertPermutesPast(k, s, counts);
    } else {
      MultisetCons(k, s);
    }
  }

  lemma NonIncreasingTail<K>(s: seq<K>, counts: map<K, int>)
    requires s != [] && NonIncreasing(s, counts)
    ensures NonIncreasing(s[1..], counts)
    ensures forall i :: 0 <= i < |s| ==> Count(counts, s[0]) >= Count(counts, s[i])
  {
    assert forall i, j :: 0 <= i < j < |s[1..]| ==> s[1..][i] == s[i + 1] && s[1..][j] == s[j + 1];
  }

  lemma WithCountCons<K>(x: K, s: seq<K>, counts: map<K, int>, v: int)
    ensures WithCount([x] + s, counts, v) == Only(x, counts, v) + WithCount(s, counts, v)
  {
    assert ([x] + s)[1..] == s;
  }

  /** Every code of the insertion is k or a code of s. */
  lemma InsertMembers<K>(k: K, s: seq<K>, counts: map<K, int>, j: int)
    requires 0 <= j < |Insert(k, s, counts)|
    ensures Insert(k, s, counts)[j] == k || Insert(k, s, counts)[j] in s
  {
    InsertPermutes(k, s, counts);
    var x := Insert(k, s, counts)[j];
    assert x in multiset(Insert(k, s, counts));
  }

  lemma InsertHead<K>(k: K, s: seq<K>, counts: map<K, int>)
    requires s != [] && NonIncreasing(s, counts) && Count(counts, s[0]) >= Count(counts, k)
    ensures forall j :: 0 <= j < |Insert(k, s, counts)| ==>
              Count(counts, s[0]) >= Count(counts, Insert(k, s, counts)[j])
  {
    NonIncreasingTail(s, counts);
    forall j | 0 <= j < |Insert(k, s, counts)|
      ensures Count(counts, s[0]) >= Count(counts, Insert(k, s, counts)[j])
    {
      InsertMembers(k, s, counts, j);
    }
  }

  lemma {:induction false} InsertSorted<K>(k: K, s: seq<K>, counts: map<K, int>)
    requires NonIncreasing(s, counts)
    ensures NonIncreasing(Insert(k, s, counts), counts)
  {
    if s != [] {
      if Count(counts, s[0]) >= Count(counts, k) {
        NonIncreasingTail(s, counts);
        InsertSorted(k, s[1..], counts);
        InsertHead(k, s, counts);
        var t := Insert(k, s[1..], counts);
        assert Insert(k, s, counts) == [s[0]] + t;
        assert forall j :: 1 <= j < |t| + 1 ==> ([s[0]] + t)[j] == t[j - 1];
      } else {
        NonIncreasingTail(s, counts);
        assert forall j :: 1 <= j < |s| + 1 ==> ([k] + s)[j] == s[j - 1];
      }
    }
  }

  lemma {:induction false} WithCountAppend<K>(a: seq<K>, k: K, counts: map<K, int>, v: int)
    ensures WithCount(a + [k], counts, v) == WithCount(a, counts, v) + Only(k, counts, v)
  {
    if a != [] {
      WithCountAppend(a[1..], k, counts, v);
      assert (a + [k])[1..] == a[1..] + [k];
    }
  }

  /** When every code of s counts less than v, none has count v. */
  lemma {:induction false} WithCountBelow<K>(s: seq<K>, counts: map<K, int>, v: int)
    requires forall i :: 0 <= i < |s| ==> Count(counts, s[i]) < v
    ensures WithCount(s, counts, v) == []
  {
    if s != [] {
      WithCountBelow(s[1..], counts, v);
    }
  }

  function Only<K(==)>(k: K, counts: map<K, int>, v: int): seq<K>
  {
    if Count(counts, k) == v then [k] else []
  }

  /** The step of InsertIsStable where k goes further in. */
  lemma InsertStablePast<K>(k: K, s: seq<K>, counts: map<K, int>, v: int)
    requires s != [] && Count(counts, s[0]) >= Count(counts, k)
    requires WithCount(Insert(k, s[1..], counts), counts, v) ==
               WithCount(s[1..], counts, v) + Only(k, counts, v)
    ensures WithCount(Insert(k, s, counts), counts, v) == WithCount(s, counts, v) + Only(k, counts, v)
  {
    InsertCons(k, s, counts);
    WithCountCons(s[0], Insert(k, s[1..], counts), counts, v);
    assert s == [s[0]] + s[1..];
    WithCountCons(s[0], s[1..], counts, v);
    ConcatAssoc(Only(s[0], counts, v), WithCount(s[1..], counts, v), Only(k, counts, v));
  }

  /** The step of InsertIsStable where k goes in front. */
  lemma InsertStableHere<K>(k: K, s: seq<K>, counts: map<K, int>, v: int)
    requires NonIncreasing(s, counts)
    requires s == [] || Count(counts, s[0]) < Count(counts, k)
    ensures WithCount(Insert(k, s, counts), counts, v) == WithCount(s, counts, v) + Only(k, counts, v)
  {
    WithCountCons(k, s, counts, v);
    if Count(counts, k) == v {
      if s != [] { NonIncreasingTail(s, counts); }
      WithCountBelow(s, counts, v);
    }
  }

  /** Inserting k into a sorted sequence puts it behind the codes of equal
      count already there. */
  lemma {:induction false} InsertIsStable<K>(k: K, s: seq<K>, counts: map<K, int>, v: int)
    requires NonIncreasing(s, counts)
    ensures WithCount(Insert(k, s, counts), counts, v) == WithCount(s, counts, v) + Only(k, counts, v)
  {
    if s != [] && Count(counts, s[0]) >= Count(counts, k) {
      NonIncreasingTail(s, counts);
      InsertIsStable(k, s[1..], counts, v);
      InsertStablePast(k, s, counts, v);
    } else {
      InsertStableHere(k, s, counts, v);
    }
  }

  /** The ranking is a permutation of the codes, sorted by count from the
      highest down, and codes of equal count keep their first-seen order. */
  lemma {:induction false} RankSpec<K>(keys: seq<K>, counts: map<K, int>)
    ensures multiset(Rank(keys, counts)) == multiset(keys)
    ensures NonIncreasing(Rank(keys, counts), counts)
    ensures forall v :: WithCount(Rank(keys, counts), counts, v) == WithCount(keys, counts, v)
  {
    if keys != [] {
      var p := keys[..|keys| - 1];
      var k := keys[|keys| - 1];
      RankSpec(p, counts);
      assert keys == p + [k];
      InsertPermutes(k, Rank(p, counts), counts);
      InsertSorted(k, Rank(p, counts), counts);
      forall v ensures WithCount(Rank(keys, counts), counts, v) == WithCount(keys, counts, v) {
        InsertIsStable(k, Rank(p, counts), counts, v);
        WithCountAppend(p, k, counts, v);
      }
    }
  }

  /** How many codes are shown. */
  const TopCount := 6

  /** `[:6]` */
  function Top<K(==)>(ranked: seq<K>): (t: seq<K>)
    ensures |t| == if |ranked| < TopCount then |ranked| else TopCount
    ensures t == ranked[..|t|]
  {
    if |ranked| < TopCount then ranked else ranked[..TopCount]
  }

  /** The ranking of the dict built from some lines: the top list holds
      min(6, number of distinct keys) keys, each of which occurs in some
      line; a key's count is the sum of its quantities; the top list is
      sorted; and no key left out has a higher count than a key shown. */
  lemma TopOfTally<K>(lines: seq<(K, int)>)
    ensures var keys := Dedup(Codes(lines));
            var counts := Tally(lines);
            var r := Rank(keys, counts);
            var distinct := |set c | c in Codes(lines)|;
            && |Top(r)| == (if distinct < TopCount then distinct else TopCount)
            && (forall c :: c in Top(r) ==> c in Codes(lines))
            && (forall c :: c in keys ==> Count(counts, c) == Total(lines, c))
            && NonIncreasing(Top(r), counts)
            && (forall i, j :: 0 <= i < |Top(r)| <= j < |r| ==> Count(counts, r[i]) >= Count(counts, r[j]))
  {
    var keys := Dedup(Codes(lines));
    KeysOfTally(lines);
    TopIsRanked(keys, Tally(lines));
    forall c | c in Top(Rank(keys, Tally(lines))) ensures c in Codes(lines) {
      assert c in keys;
    }
  }

  /** The dict's keys: one per distinct code, and each counted by its total. */
  lemma KeysOfTally<K>(lines: seq<(K, int)>)
    ensures |Dedup(Codes(lines))| == |set c | c in Codes(lines)|
    ensures forall c :: c in Dedup(Codes(lines)) <==> c in Codes(lines)
    ensures forall c :: c in Dedup(Codes(lines)) ==> Count(Tally(lines), c) == Total(lines, c)
  {
    DedupSpec(Codes(lines));
    TopCounted(Dedup(Codes(lines)), Codes(lines));
    TallyTotals(lines);
  }

  /** Distinct keys with the same elements as the codes are as many as the
      distinct codes. */
  lemma TopCounted<K>(keys: seq<K>, codes: seq<K>)
    requires Distinct(keys)
    requires forall x :: x in keys <==> x in codes
    ensures |keys| == |set c | c in codes|
  {
    DistinctCard(keys);
    assert (set c | c in keys) == (set c | c in codes);
  }

  /** The top list is a sorted prefix of the ranking of the keys. */
  lemma TopIsRanked<K>(keys: seq<K>, counts: map<K, int>)
    ensures forall c :: c in Top(Rank(keys, counts)) ==> c in keys
    ensures NonIncreasing(Top(Rank(keys, counts)), counts)
    ensures forall i, j :: 0 <= i < |Top(Rank(keys, counts))| <= j < |keys| ==>
              Count(counts, Rank(keys, counts)[i]) >= Count(counts, Rank(keys, counts)[j])
  {
    var r := Rank(keys, counts);
    RankSpec(keys, counts);
    forall c | c in Top(r) ensures c in keys {
      assert c in r;
      assert c in multiset(r);
    }
  }

  /** The same for the orders: the top list of a successful accumulation. */
  lemma TopOfAccumulated(orders: seq<Option<Json>>)
    requires Accumulated(orders).Success?
    ensures var lines := Pairs(orders).value;
            var (keys, counts) := Accumulated(orders).value;
            var r := Rank(keys, counts);
            var distinct := |set c | c in Codes(lines)|;
            && |Top(r)| == (if distinct < TopCount then distinct else TopCount)
            && (forall c :: c in Top(r) ==> c in Codes(lines))
            && (forall c :: c in keys ==> Count(counts, c) == Total(lines, c))
            && NonIncreasing(Top(r), counts)
            && (forall i, j :: 0 <= i < |Top(r)| <= j < |r| ==> Count(counts, r[i]) >= Count(counts, r[j]))
  {
    TopOfTally(Pairs(orders).value);
  }

  // ---------------------------------------------------------------------
  // From codes to products

  /** The text `int` is applied to: `code.split('_')[0][2:]`; slicing past
      the end gives the empty text. */
  function IdText(code: string): string
  {
    var head := Split(code, '_')[0];
    if |head| >= 2 then head[2..] else []
  }

  predicate AllDigits(t: string)
  {
    forall k :: 0 <= k < |t| ==> IsDigit(t[k])
  }

  /** `int(t)` on ASCII text: surrounding whitespace, an optional sign, then
      one or more decimal digits; anything else raises `ValueError`. */
  function ParseInt(t: string): Result<int, Fault>
  {
    var u := Strip(t);
    if u != [] && (u[0] == '-' || u[0] == '+') then
      if |u| > 1 && AllDigits(u[1..]) then
        var v: int := DigitsValue(u[1..]);
        Success(if u[0] == '-' then -v else v)
      else Failure(BadProductId)
    else if u != [] && AllDigits(u) then Success(DigitsValue(u))
    else Failure(BadProductId)
  }

  /** `int(code.split('_')[0][2:])` */
  function ProductId(code: string): Result<int, Fault>
  {
    ParseInt(IdText(code))
  }

  /** `str(n)` for any integer. */
  function IntText(n: int): (t: string)
    ensures t != [] && '_' !in t
    ensures !IsSpace(t[0]) && !IsSpace(t[|t| - 1])
  {
    if n < 0 then "-" + DecimalText(-n) else DecimalText(n)
  }

  /** `int(str(n)) == n` */
  lemma ParseIntText(n: int)
    ensures ParseInt(IntText(n)) == Success(n)
  {
    StripKeeps(IntText(n));
    if n < 0 {
      ParseNegative(n);
    } else {
      ParseNonNegative(n);
    }
  }

  lemma ParseNegative(n: int)
    requires n < 0 && Strip(IntText(n)) == IntText(n)
    ensures ParseInt(IntText(n)) == Success(n)
  {
    var t := IntText(n);
    DecimalTextRoundTrip(-n);
    assert t[1..] == DecimalText(-n);
    assert t[0] == '-' && |t| > 1;
  }

  lemma ParseNonNegative(n: int)
    requires n >= 0 && Strip(IntText(n)) == IntText(n)
    ensures ParseInt(IntText(n)) == Success(n)
  {
    var t := IntText(n);
    DecimalTextRoundTrip(n);
    assert IsDigit(t[0]);
  }

  /** A code made of a two-character prefix, the decimal id and then
      nothing or an underscore and anything, names that id. */
  lemma ProductIdRoundTrip(prefix: string, n: int, tail: string)
    requires |prefix| == 2 && '_' !in prefix
    requires tail == [] || tail[0] == '_'
    ensures ProductId(prefix + IntText(n) + tail) == Success(n)
  {
    var x := prefix + IntText(n);
    SplitHead(x, tail, '_');
    assert x[2..] == IntText(n);
    ParseIntText(n);
  }

  /** The ids of the top codes (`[int(code.split('_')[0][2:]) for code in
      top_product_codes]`), or the fault of the first code that has none. */
  function Ids(codes: seq<string>): Result<seq<int>, Fault>
  {
    MapAll(ProductId, codes)
  }

  /** The ids that name a product of the catalogue, keeping their order. */
  function InCatalog(ids: seq<int>, catalog: set<int>): seq<int>
  {
    if ids == [] then []
    else InCatalog(ids[..|ids| - 1], catalog) + (if ids[|ids| - 1] in catalog then [ids[|ids| - 1]] else [])
  }

  /** `product.objects.filter(id__in=ids).order_by(Case(When(id=..., then=pos), ...))`:
      each catalogue product whose id is among the ids, once, ordered by the
      position of the first code naming it (the first `When` that matches
      decides). */
  function Shown(ids: seq<int>, catalog: set<int>): seq<int>
  {
    InCatalog(Dedup(ids), catalog)
  }

  /** Filtering keeps membership in both and the relative order. */
  lemma {:induction false} InCatalogSpec(d: seq<int>, catalog: set<int>, ids: seq<int>)
    requires forall x :: x in d ==> x in ids
    requires Distinct(d)
    requires forall i, j :: 0 <= i < j < |d| ==> FirstPos(ids, d[i]) < FirstPos(ids, d[j])
    ensures forall x :: x in InCatalog(d, catalog) <==> x in d && x in catalog
    ensures Distinct(InCatalog(d, catalog))
    ensures forall i, j :: 0 <= i < j < |InCatalog(d, catalog)| ==>
              FirstPos(ids, InCatalog(d, catalog)[i]) < FirstPos(ids, InCatalog(d, catalog)[j])
  {
    if d != [] {
      var p := d[..|d| - 1];
      var y := d[|d| - 1];
      assert d == p + [y];
      assert forall i :: 0 <= i < |p| ==> p[i] == d[i];
      InCatalogSpec(p, catalog, ids);
      forall x | x in p ensures FirstPos(ids, x) < FirstPos(ids, y) && x != y {
        var m :| 0 <= m < |p| && p[m] == x;
        assert d[m] == x;
      }
      InCatalogStep(p, y, catalog, ids);
    }
  }

  /** One more id, later than all before it. */
  lemma InCatalogStep(p: seq<int>, y: int, catalog: set<int>, ids: seq<int>)
    requires y in ids && forall x :: x in p ==> x in ids
    requires forall x :: x in p ==> FirstPos(ids, x) < FirstPos(ids, y) && x != y
    requires forall x :: x in InCatalog(p, catalog) <==> x in p && x in catalog
    requires Distinct(InCatalog(p, catalog))
    requires forall i, j :: 0 <= i < j < |InCatalog(p, catalog)| ==>
               FirstPos(ids, InCatalog(p, catalog)[i]) < FirstPos(ids, InCatalog(p, catalog)[j])
    ensures forall x :: x in InCatalog(p + [y], catalog) <==> x in p + [y] && x in catalog
    ensures Distinct(InCatalog(p + [y], catalog))
    ensures forall i, j :: 0 <= i < j < |InCatalog(p + [y], catalog)| ==>
              FirstPos(ids, InCatalog(p + [y], catalog)[i]) < FirstPos(ids, InCatalog(p + [y], catalog)[j])
  {
    var d := p + [y];
    assert d[..|d| - 1] == p;
    var q := InCatalog(p, catalog);
    if y in catalog {
      assert InCatalog(d, catalog) == q + [y];
      forall i | 0 <= i < |q| ensures FirstPos(ids, q[i]) < FirstPos(ids, y) && q[i] != y {
        assert q[i] in q;
      }
    } else {
      assert InCatalog(d, catalog) == q;
    }
  }

  /** Each shown product appears once; a product is shown exactly when its
      id is among the ids and it is in the catalogue; and they come in the
      order of the first position naming them. */
  lemma ShownSpec(ids: seq<int>, catalog: set<int>)
    ensures forall x :: x in Shown(ids, catalog) <==> x in ids && x in catalog
    ensures Distinct(Shown(ids, catalog))
    ensures forall i, j :: 0 <= i < j < |Shown(ids, catalog)| ==>
              FirstPos(ids, Shown(ids, catalog)[i]) < FirstPos(ids, Shown(ids, catalog)[j])
  {
    DedupSpec(ids);
    InCatalogSpec(Dedup(ids), catalog, ids);
  }

  /** The whole block: the trending products' ids, or the fault that ends
      the request. */
  function Trending(orders: seq<Option<Json>>, catalog: set<int>): Result<seq<int>, Fault>
  {
    match Accumulated(orders)
    case Failure(e) => Failure(e)
    case Success((keys, counts)) =>
      match Ids(Top(Rank(keys, counts)))
      case Failure(e) => Failure(e)
      case Success(ids) => Success(Shown(ids, catalog))
  }

  /** One order that cannot be read (not JSON, not an object, or a member
      without a quantity) makes the whole block fail: nothing catches it. */
  lemma OneBadOrderFails(orders: seq<Option<Json>>, catalog: set<int>, k: int)
    requires 0 <= k < |orders| && OrderLines(orders[k]).Failure?
    ensures Trending(orders, catalog).Failure?
  {
    MapAllSpec(OrderLines, orders);
  }

  /** The index view's trending block: the loop, then the pure steps. */
  method TrendingProducts(orders: seq<Option<Json>>, catalog: set<int>) returns (r: Result<seq<int>, Fault>)
    ensures r == Trending(orders, catalog)
  {
    var acc := Accumulate(orders);
    if acc.Failure? {
      return Failure(acc.error);
    }
    var (keys, counts) := acc.value;
    var top := Top(Rank(keys, counts));
    var ids := Ids(top);
    if ids.Failure? {
      return Failure(ids.error);
    }
    return Success(Shown(ids.value, catalog));
  }

  // ---------------------------------------------------------------------
  // Examples

  /** `int("id5_a".split('_')[0][2:]) == 5` */
  lemma ProductIdExample()
    ensures ProductId("id5_a") == Success(5)
    ensures ProductId("x_9") == Failure(BadProductId)
  {
    assert IntText(5) == "5";
    assert "id" + IntText(5) + "_a" == "id5_a";
    ProductIdRoundTrip("id", 5, "_a");
    SplitHead("x", "_9", '_');
    assert "x" + "_9" == "x_9";
  }

  /** Two orders holding two codes of product 5 (sizes S and L) and one of
      product 7. */
  const ExampleOrders: seq<Option<Json>> :=
    [Some(JObj([("id5_S", JArr([JNum(2)])), ("id7_M", JArr([JNum(3)]))])),
     Some(JObj([("id5_L", JArr([JNum(1)]))]))]

  const ExampleLines: seq<Line> := [("id5_S", 2), ("id7_M", 3), ("id5_L", 1)]

  lemma ExamplePairs()
    ensures Pairs(ExampleOrders) == Success(ExampleLines)
  {
    var lines := ExampleLines;
    var o1 := ExampleOrders[0];
    var o2 := ExampleOrders[1];
    var ms1 := o1.value.members;
    var ms2 := o2.value.members;
    var none: seq<Line> := [];
    MapAllStep(LineOf, ms1, 0, none);
    assert none + [lines[0]] == [lines[0]];
    MapAllStep(LineOf, ms1, 1, [lines[0]]);
    assert [lines[0]] + [lines[1]] == [lines[0], lines[1]];
    assert ms1[..2] == ms1;
    MapAllStep(LineOf, ms2, 0, none);
    assert none + [lines[2]] == [lines[2]];
    assert ms2[..1] == ms2;
    var g1 := [lines[0], lines[1]];
    var g2 := [lines[2]];
    assert OrderLines(o1) == Success(g1);
    assert OrderLines(o2) == Success(g2);
    var nogroups: seq<seq<Line>> := [];
    MapAllStep(OrderLines, ExampleOrders, 0, nogroups);
    assert nogroups + [g1] == [g1];
    MapAllStep(OrderLines, ExampleOrders, 1, [g1]);
    assert ExampleOrders[..2] == ExampleOrders;
    assert [g1] + [g2] == [g1, g2];
    GroupsStep([g1], g2);
    GroupsStep(nogroups, g1);
    assert Flatten(nogroups) + g1 == g1;
    assert g1 + g2 == lines;
  }

  lemma ExampleTally()
    ensures Dedup(Codes(ExampleLines)) == ["id5_S", "id7_M", "id5_L"]
    ensures Tally(ExampleLines) == map["id5_S" := 2, "id7_M" := 3, "id5_L" := 1]
  {
    var lines := ExampleLines;
    var keys := ["id5_S", "id7_M", "id5_L"];
    assert lines[..2][..1] == lines[..1];
    assert lines[..1][..0] == [];
    assert Codes(lines) == keys;
    assert keys[..2][..1] == keys[..1];
    assert keys[..1][..0] == [];
    assert Dedup(keys) == keys;
    assert Tally(lines[..1]) == map["id5_S" := 2];
    assert Tally(lines[..2]) == map["id5_S" := 2, "id7_M" := 3];
  }

  lemma ExampleRank()
    ensures Rank(["id5_S", "id7_M", "id5_L"], map["id5_S" := 2, "id7_M" := 3, "id5_L" := 1]) ==
              ["id7_M", "id5_S", "id5_L"]
  {
    var keys := ["id5_S", "id7_M", "id5_L"];
    var counts := map["id5_S" := 2, "id7_M" := 3, "id5_L" := 1];
    var none: seq<string> := [];
    assert keys[..1] == ["id5_S"] && keys[..2] == ["id5_S", "id7_M"];
    assert ["id5_S"][..0] == none;
    assert Rank(keys[..1], counts) == ["id5_S"];
    assert Rank(keys[..2], counts) == ["id7_M", "id5_S"];
    assert ["id7_M", "id5_S"][1..] == ["id5_S"];
    assert ["id5_S"][1..] == none;
    assert Insert("id5_L", ["id5_S"], counts) == ["id5_S", "id5_L"];
  }

  lemma ExampleId7()
    ensures ProductId("id7_M") == Success(7)
  {
    assert "id" + IntText(7) + "_M" == "id7_M";
    ProductIdRoundTrip("id", 7, "_M");
  }

  lemma ExampleId5()
    ensures ProductId("id5_S") == Success(5)
    ensures ProductId("id5_L") == Success(5)
  {
    assert "id" + IntText(5) + "_S" == "id5_S";
    ProductIdRoundTrip("id", 5, "_S");
    assert "id" + IntText(5) + "_L" == "id5_L";
    ProductIdRoundTrip("id", 5, "_L");
  }

  lemma MapAllThree<A, B, E>(f: A -> Result<B, E>, a: A, b: A, c: A, x: B, y: B, z: B)
    requires f(a) == Success(x) && f(b) == Success(y) && f(c) == Success(z)
    ensures MapAll(f, [a, b, c]) == Success([x, y, z])
  {
    var xs := [a, b, c];
    var none: seq<B> := [];
    MapAllStep(f, xs, 0, none);
    assert none + [x] == [x];
    MapAllStep(f, xs, 1, [x]);
    assert [x] + [y] == [x, y];
    MapAllStep(f, xs, 2, [x, y]);
    assert [x, y] + [z] == [x, y, z];
    assert xs[..3] == xs;
  }

  lemma ExampleIds()
    ensures Ids(["id7_M", "id5_S", "id5_L"]) == Success([7, 5, 5])
  {
    ExampleId7();
    ExampleId5();
    MapAllThree(ProductId, "id7_M", "id5_S", "id5_L", 7, 5, 5);
  }

  lemma ExampleShown()
    ensures Shown([7, 5, 5], {5, 7}) == [7, 5]
  {
    var ids := [7, 5, 5];
    assert ids[..2] == [7, 5] && ids[..2][..1] == [7];
    assert Dedup([7]) == [7];
    assert Dedup(ids[..2]) == [7, 5];
    assert Dedup(ids) == [7, 5];
    assert [7, 5][..1] == [7];
  }

  /** The two codes of product 5 are ranked apart, and the product is shown
      once, where its better-ranked code stands. */
  lemma SharedIdExample()
    ensures Trending(ExampleOrders, {5, 7}) == Success([7, 5])
  {
    var keys := ["id5_S", "id7_M", "id5_L"];
    var counts := map["id5_S" := 2, "id7_M" := 3, "id5_L" := 1];
    var top := ["id7_M", "id5_S", "id5_L"];
    assert Accumulated(ExampleOrders) == Success((keys, counts)) by {
      ExamplePairs();
      ExampleTally();
    }
    assert Top(Rank(keys, counts)) == top by {
      ExampleRank();
    }
    assert Ids(top) == Success([7, 5, 5]) by {
      ExampleIds();
    }
    ExampleShown();
  }
}

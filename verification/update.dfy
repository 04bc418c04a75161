/** The per-file pipeline (toc_interface_updater/update.py): read and
    normalise the text, resolve the versions, detect what the file declares,
    re-resolve from that, format the interface value, rewrite and record. */
module Update {
  import opened Wrappers
  import opened PyStr
  import opened Types
  import opened VersionClient
  import opened VersionResolver
  import ContentUpdater
  import opened FileProcessor
  import opened Catalog

  // ---------------------------------------------------------------------------
  // Newline normalisation

  /** `s.replace("\r\n", "\n").replace("\r", "\n")` */
  function Normalize(s: string): (r: string)
    ensures '\r' !in r
  {
    ReplaceCharRemoves(ReplaceCrLf(s), '\r', "\n");
    ReplaceChar(ReplaceCrLf(s), '\r', "\n")
  }

  /** A text without carriage returns is already normal. */
  lemma NormalizeKeepsNormal(s: string)
    requires '\r' !in s
    ensures Normalize(s) == s
  {
    ReplaceCrLfWithoutCr(s);
    ReplaceCharAbsent(s, '\r', "\n");
  }

  /** Normalising twice is normalising once. */
  lemma NormalizeIdempotent(s: string)
    ensures Normalize(Normalize(s)) == Normalize(s)
  {
    NormalizeKeepsNormal(Normalize(s));
  }

  /** Turning the newlines of a normal text into CR LF is undone by the
      CR LF replacement. */
  lemma {:induction false} ReplaceCrLfUndoesCrLf(s: string)
    requires '\r' !in s
    ensures ReplaceCrLf(ReplaceChar(s, '\n', "\r\n")) == s
    decreases |s|
  {
    if |s| > 0 {
      ReplaceCrLfUndoesCrLf(s[1..]);
      var rest := ReplaceChar(s[1..], '\n', "\r\n");
      if s[0] == '\n' {
        assert ("\r\n" + rest)[2..] == rest;
      } else {
        assert ([s[0]] + rest)[1..] == rest;
      }
      assert [s[0]] + s[1..] == s;
    }
  }

  /** A text with CR LF line endings normalises to the same text with
      newlines, so the two are rewritten alike. */
  lemma NormalizeCrLfText(s: string)
    requires '\r' !in s
    ensures Normalize(ReplaceChar(s, '\n', "\r\n")) == s
  {
    ReplaceCrLfUndoesCrLf(s);
    ReplaceCharAbsent(s, '\r', "\n");
  }

  // ---------------------------------------------------------------------------
  // Formatting the interface value

  /** A version with its integer sort key. */
  datatype Keyed = Keyed(key: int, version: string)

  /** The keys `int(v)` of the versions, in order; a version `int()`
      refuses raises ValueError. */
  function KeyAll(vs: seq<string>): (r: Result<seq<Keyed>>)
    ensures r.Ok? <==> forall i :: 0 <= i < |vs| ==> ParseInt(vs[i]).Ok?
    ensures r.Ok? ==> |r.value| == |vs|
    ensures r.Ok? ==> forall i :: 0 <= i < |vs| ==> r.value[i] == Keyed(ParseInt(vs[i]).value, vs[i])
    ensures r.Raise? ==> r.error == ValueError
    decreases |vs|
  {
    if |vs| == 0 then Ok([])
    else
      match ParseInt(vs[0])
      case Raise(e) => Raise(e)
      case Ok(k) =>
        match KeyAll(vs[1..])
        case Raise(e) => Raise(e)
        case Ok(rest) => Ok([Keyed(k, vs[0])] + rest)
  }

  /** Ascending by key. */
  predicate SortedByKey(s: seq<Keyed>) {
    forall i, j :: 0 <= i < j < |s| ==> s[i].key <= s[j].key
  }

  /** The versions of keyed versions, in order. */
  function VersionsOf(s: seq<Keyed>): (vs: seq<string>)
    ensures |vs| == |s|
  {
    seq(|s|, i requires 0 <= i < |s| => s[i].version)
  }

  /** The versions of a concatenation are the concatenated versions. */
  lemma VersionsOfAppend(a: seq<Keyed>, b: seq<Keyed>)
    ensures VersionsOf(a + b) == VersionsOf(a) + VersionsOf(b)
  {
  }

  /** Inserts `x` after every element whose key is not greater. */
  function Insert(x: Keyed, s: seq<Keyed>): (r: seq<Keyed>)
    ensures |r| == |s| + 1
    decreases |s|
  {
    if |s| == 0 then [x]
    else if x.key < s[0].key then [x] + s
    else [s[0]] + Insert(x, s[1..])
  }

  /** Inserting adds `x` to the multiset. */
  lemma {:induction false} InsertPermutes(x: Keyed, s: seq<Keyed>)
    ensures multiset(Insert(x, s)) == multiset(s) + multiset{x}
    decreases |s|
  {
    if |s| > 0 && x.key >= s[0].key {
      assert s == [s[0]] + s[1..];
      InsertPermutes(x, s[1..]);
    }
  }

  /** Inserting starts with `x` or with the old first element, and keeps a
      sorted sequence sorted. */
  lemma {:induction false} InsertKeepsSorted(x: Keyed, s: seq<Keyed>)
    ensures Insert(x, s)[0] == x || (|s| > 0 && Insert(x, s)[0] == s[0])
    ensures SortedByKey(s) ==> SortedByKey(Insert(x, s))
    decreases |s|
  {
    if |s| > 0 && x.key >= s[0].key {
      var rest := Insert(x, s[1..]);
      assert Insert(x, s) == [s[0]] + rest;
      InsertKeepsSorted(x, s[1..]);
      if SortedByKey(s) {
        assert SortedByKey(s[1..]);
        assert forall k :: 0 <= k < |rest| ==> s[0].key <= rest[k].key;
      }
    }
  }

  /** `sorted(…, key=…)`: a stable sort by key, each element inserted after
      those before it with an equal key. */
  function SortKeyed(s: seq<Keyed>): (r: seq<Keyed>)
    ensures multiset(r) == multiset(s)
    ensures SortedByKey(r)
    decreases |s|
  {
    if |s| == 0 then []
    else
      assert s == s[..|s| - 1] + [s[|s| - 1]];
      InsertPermutes(s[|s| - 1], SortKeyed(s[..|s| - 1]));
      InsertKeepsSorted(s[|s| - 1], SortKeyed(s[..|s| - 1]));
      Insert(s[|s| - 1], SortKeyed(s[..|s| - 1]))
  }

  /** The elements with key `k`, in order. */
  function WithKey(s: seq<Keyed>, k: int): seq<Keyed>
    decreases |s|
  {
    if |s| == 0 then []
    else (if s[0].key == k then [s[0]] else []) + WithKey(s[1..], k)
  }

  /** Selecting by key distributes over concatenation. */
  lemma {:induction false} WithKeyAppend(a: seq<Keyed>, b: seq<Keyed>, k: int)
    ensures WithKey(a + b, k) == WithKey(a, k) + WithKey(b, k)
    decreases |a|
  {
    if |a| == 0 {
      assert a + b == b;
    } else {
      var head := if a[0].key == k then [a[0]] else [];
      assert (a + b)[0] == a[0];
      assert (a + b)[1..] == a[1..] + b;
      calc {
        WithKey(a + b, k);
        head + WithKey(a[1..] + b, k);
        { WithKeyAppend(a[1..], b, k); }
        head + (WithKey(a[1..], k) + WithKey(b, k));
        (head + WithKey(a[1..], k)) + WithKey(b, k);
        WithKey(a, k) + WithKey(b, k);
      }
    }
  }

  /** In a sorted sequence, inserting `x` places it after every element with
      the same key. */
  lemma {:induction false} InsertWithKey(x: Keyed, s: seq<Keyed>, k: int)
    requires SortedByKey(s)
    ensures WithKey(Insert(x, s), k) == WithKey(s, k) + (if x.key == k then [x] else [])
    decreases |s|
  {
    if |s| == 0 {
      assert [x][1..] == [];
    } else if x.key < s[0].key {
      WithKeyAppend([x], s, k);
      if x.key == k {
        NoneWithSmallerKey(s, k);
      }
    } else {
      assert SortedByKey(s[1..]);
      InsertWithKey(x, s[1..], k);
      InsertWithKeyStep(x, s, k);
    }
  }

  /** The step of `InsertWithKey` past a first element whose key is not
      above `x`'s. */
  lemma InsertWithKeyStep(x: Keyed, s: seq<Keyed>, k: int)
    requires |s| > 0 && s[0].key <= x.key
    requires WithKey(Insert(x, s[1..]), k) == WithKey(s[1..], k) + (if x.key == k then [x] else [])
    ensures WithKey(Insert(x, s), k) == WithKey(s, k) + (if x.key == k then [x] else [])
  {
    assert s == [s[0]] + s[1..];
    WithKeyAppend([s[0]], Insert(x, s[1..]), k);
    WithKeyAppend([s[0]], s[1..], k);
  }

  /** A sorted sequence starting above `k` has no element with key `k`. */
  lemma {:induction false} NoneWithSmallerKey(s: seq<Keyed>, k: int)
    requires SortedByKey(s) && |s| > 0 && k < s[0].key
    ensures WithKey(s, k) == []
    decreases |s|
  {
    if |s| > 1 {
      assert SortedByKey(s[1..]);
      NoneWithSmallerKey(s[1..], k);
    }
  }

  /** `sorted` is stable: for every key, the elements with that key keep the
      order they had, so "0110000" and "110000" come out in the order they
      were iterated. */
  lemma {:induction false} SortKeyedStable(s: seq<Keyed>, k: int)
    ensures WithKey(SortKeyed(s), k) == WithKey(s, k)
    decreases |s|
  {
    if |s| > 0 {
      var init, last := s[..|s| - 1], s[|s| - 1];
      assert s == init + [last];
      SortKeyedStable(init, k);
      InsertWithKey(last, SortKeyed(init), k);
      WithKeyAppend(init, [last], k);
      assert [last][1..] == [];
    }
  }

  /** Inserting adds the element's version to the versions. */
  lemma {:induction false} InsertVersions(x: Keyed, s: seq<Keyed>)
    ensures multiset(VersionsOf(Insert(x, s))) == multiset(VersionsOf(s)) + multiset{x.version}
    decreases |s|
  {
    assert VersionsOf([x]) == [x.version];
    if |s| == 0 {
    } else if x.key < s[0].key {
      VersionsOfAppend([x], s);
    } else {
      InsertVersions(x, s[1..]);
      assert s == [s[0]] + s[1..];
      assert VersionsOf([s[0]]) == [s[0].version];
      VersionsOfAppend([s[0]], Insert(x, s[1..]));
      VersionsOfAppend([s[0]], s[1..]);
    }
  }

  /** Sorting rearranges the versions. */
  lemma {:induction false} SortKeyedVersions(s: seq<Keyed>)
    ensures multiset(VersionsOf(SortKeyed(s))) == multiset(VersionsOf(s))
    decreases |s|
  {
    if |s| > 0 {
      var init, last := s[..|s| - 1], s[|s| - 1];
      assert s == init + [last];
      var sorted := SortKeyed(init);
      assert SortKeyed(s) == Insert(last, sorted);
      SortKeyedVersions(init);
      InsertVersions(last, sorted);
      var m := multiset(VersionsOf(init)) + multiset{last.version};
      assert multiset(VersionsOf(SortKeyed(s))) == m;
      assert VersionsOf([last]) == [last.version];
      VersionsOfAppend(init, [last]);
      assert multiset(VersionsOf(s)) == m;
    }
  }

  /** `", ".join(sorted(versions, key=lambda x: int(x)))` when the set is
      iterated in the order `order`. */
  function SortedInterface(order: seq<string>): Result<string> {
    match KeyAll(order)
    case Raise(e) => Raise(e)
    case Ok(keyed) => Ok(Join(VersionsOf(SortKeyed(keyed)), ", "))
  }

  /** The interface value lists the versions, each once as often as it was
      iterated, in ascending integer order, joined by a comma and a space;
      it is refused exactly when some version is not an integer. */
  lemma SortedInterfaceMeaning(order: seq<string>)
    ensures SortedInterface(order).Raise? <==> exists i :: 0 <= i < |order| && ParseInt(order[i]).Raise?
    ensures SortedInterface(order).Raise? ==> SortedInterface(order).error == ValueError
    ensures SortedInterface(order).Ok? ==>
      var sorted := VersionsOf(SortKeyed(KeyAll(order).value));
      SortedInterface(order).value == Join(sorted, ", ")
      && multiset(sorted) == multiset(order)
      && (forall i :: 0 <= i < |sorted| ==> ParseInt(sorted[i]).Ok?)
      && forall i, j :: 0 <= i < j < |sorted| ==> ParseInt(sorted[i]).value <= ParseInt(sorted[j]).value
  {
    var keys := KeyAll(order);
    if keys.Ok? {
      KeyedVersions(order, keys.value);
      SortedVersionsAscend(keys.value);
    }
  }

  /** Sorting keyed versions whose keys are their integer values rearranges
      the versions into ascending integer order. */
  lemma SortedVersionsAscend(keyed: seq<Keyed>)
    requires forall k | k in keyed :: ParseInt(k.version) == Ok(k.key)
    ensures var sorted := VersionsOf(SortKeyed(keyed));
      multiset(sorted) == multiset(VersionsOf(keyed))
      && (forall i :: 0 <= i < |sorted| ==> ParseInt(sorted[i]).Ok?)
      && forall i, j :: 0 <= i < j < |sorted| ==> ParseInt(sorted[i]).value <= ParseInt(sorted[j]).value
  {
    var s := SortKeyed(keyed);
    var sorted := VersionsOf(s);
    SortKeyedVersions(keyed);
    forall i | 0 <= i < |s|
      ensures ParseInt(sorted[i]) == Ok(s[i].key)
    {
      assert s[i] in multiset(keyed);
    }
  }

  /** Each keyed version carries the key `int()` gives it, and the keyed
      versions list the versions in order. */
  lemma KeyedVersions(order: seq<string>, keyed: seq<Keyed>)
    requires KeyAll(order) == Ok(keyed)
    ensures forall k | k in keyed :: ParseInt(k.version) == Ok(k.key)
    ensures VersionsOf(keyed) == order
  {
  }

  /** The interface value for a version set: the set is iterated in some
      order, each version keyed by `int()`, and the stable sort joined. */
  method SortVersions(versions: set<string>) returns (r: Result<string>, ghost order: seq<string>)
    ensures Enumerates(order, versions)
    ensures r == SortedInterface(order)
  {
    var listed: seq<string> := [];
    var rest := versions;
    while rest != {}
      invariant rest <= versions
      invariant forall x :: x in listed <==> x in versions && x !in rest
      invariant forall i, j :: 0 <= i < j < |listed| ==> listed[i] != listed[j]
      decreases rest
    {
      var x :| x in rest;
      listed := listed + [x];
      rest := rest - {x};
    }
    order := listed;
    r := SortedInterface(listed);
  }

  /** Versions sort by their integer value, not as strings. */
  lemma SortedInterfaceExample()
    ensures SortedInterface(["100000", "90000"]) == Ok("90000, 100000")
  {
    var keyed := [Keyed(100000, "100000"), Keyed(90000, "90000")];
    ExampleKeys();
    ExampleSort();
    ExampleJoin();
    assert VersionsOf(SortKeyed(keyed)) == ["90000", "100000"];
  }

  lemma ExampleJoin()
    ensures Join(["90000", "100000"], ", ") == "90000, 100000"
  {
    var sorted := ["90000", "100000"];
    assert sorted[1..] == ["100000"];
    assert Join(sorted, ", ") == "90000" + ", " + "100000";
  }

  lemma ExampleSort()
    ensures SortKeyed([Keyed(100000, "100000"), Keyed(90000, "90000")])
      == [Keyed(90000, "90000"), Keyed(100000, "100000")]
  {
    var keyed := [Keyed(100000, "100000"), Keyed(90000, "90000")];
    assert keyed[..1] == [keyed[0]];
    SortSingle(keyed[0]);
    assert SortKeyed(keyed) == Insert(keyed[1], SortKeyed(keyed[..1]));
  }

  lemma SortSingle(x: Keyed)
    ensures SortKeyed([x]) == [x]
  {
    assert [x][..0] == [];
  }

  lemma ExampleKeys()
    ensures KeyAll(["100000", "90000"]) == Ok([Keyed(100000, "100000"), Keyed(90000, "90000")])
  {
    ExampleValues();
    var vs := ["100000", "90000"];
    var r := KeyAll(vs);
    assert vs[0] == "100000" && vs[1] == "90000";
    assert r.Ok?;
    assert r.value[0] == Keyed(100000, "100000") && r.value[1] == Keyed(90000, "90000");
    assert r.value == [Keyed(100000, "100000"), Keyed(90000, "90000")];
  }

  lemma ExampleValues()
    ensures ParseInt("100000") == Ok(100000) && ParseInt("90000") == Ok(90000)
  {
    ParseIntOfDigits("100000");
    ParseIntOfDigits("90000");
    ValueOfHundredThousand();
    ValueOfNinetyThousand();
  }

  lemma ValueOfHundredThousand()
    ensures Value("100000") == 100000
  {
    assert Value("1") == 1 by { assert "1"[..0] == ""; }
    assert Value("10") == 10 by { assert "10"[..1] == "1"; }
    assert Value("100") == 100 by { assert "100"[..2] == "10"; }
    assert Value("1000") == 1000 by { assert "1000"[..3] == "100"; }
    assert Value("10000") == 10000 by { assert "10000"[..4] == "1000"; }
    assert "100000"[..5] == "10000";
  }

  lemma ValueOfNinetyThousand()
    ensures Value("90000") == 90000
  {
    assert Value("9") == 9 by { assert "9"[..0] == ""; }
    assert Value("90") == 90 by { assert "90"[..1] == "9"; }
    assert Value("900") == 900 by { assert "900"[..2] == "90"; }
    assert Value("9000") == 9000 by { assert "9000"[..3] == "900"; }
    assert "90000"[..4] == "9000";
  }

  // ---------------------------------------------------------------------------
  // update_versions

  /** The orders in which this run iterates the three version sets: the
      collected versions, the detected versions and the re-resolved ones. */
  datatype Orders = Orders(collected: seq<string>, detected: seq<string>, resolved: seq<string>)

  /** The interface value `update_versions` writes into `text`, or the
      exception that ends it: the collected versions, sorted; then, when the
      text declares versions, the versions resolved from those, sorted. */
  function Interface(text: string, entries: map<Product, string>, fetch: Product -> Option<string>,
                     product: FullProduct, multi: bool, beta: bool, test: bool, orders: Orders): Result<string>
  {
    match Collected(entries, fetch, product, beta, test, orders.collected)
    case Raise(e) => Raise(e)
    case Ok(collected) =>
      if Detect(text, product, multi).versions == {} then Ok(collected)
      else Resolved(entries, fetch, beta, test, orders.detected, orders.resolved)
  }

  /** The collected versions, sorted and joined, or the exception that ends
      the collection. */
  function Collected(entries: map<Product, string>, fetch: Product -> Option<string>,
                     product: FullProduct, beta: bool, test: bool, collectedOrder: seq<string>): Result<string>
  {
    match AllVersions(entries, fetch, product, beta, test)
    case Raise(e) => Raise(e)
    case Ok(_) => SortedInterface(collectedOrder)
  }

  /** The versions resolved from the detected ones, sorted and joined, or
      the exception that ends the resolution. */
  function Resolved(entries: map<Product, string>, fetch: Product -> Option<string>, beta: bool, test: bool,
                    detectedOrder: seq<string>, resolvedOrder: seq<string>): Result<string>
  {
    match FromDetected(entries, fetch, beta, test, detectedOrder)
    case Raise(e) => Raise(e)
    case Ok(_) => SortedInterface(resolvedOrder)
  }

  /** The text `update_versions` would write, or the exception that ends it. */
  function UpdatedText(text: string, entries: map<Product, string>, fetch: Product -> Option<string>,
                       product: FullProduct, multi: bool, beta: bool, test: bool, orders: Orders): Result<string>
  {
    match Interface(text, entries, fetch, product, multi, beta, test, orders)
    case Raise(e) => Raise(e)
    case Ok(interface) =>
      Ok(ContentUpdater.UpdateInterfaceContent(text, product, interface, multi, Detect(text, product, multi).singleLineMulti))
  }

  /** Each order iterates its set, as far as the run gets. */
  ghost predicate IteratesSets(text: string, entries: map<Product, string>, fetch: Product -> Option<string>,
                               product: FullProduct, multi: bool, beta: bool, test: bool, orders: Orders)
  {
    var all := AllVersions(entries, fetch, product, beta, test);
    (all.Ok? ==> Enumerates(orders.collected, all.value))
    && (Collected(entries, fetch, product, beta, test, orders.collected).Ok? ==>
          Enumerates(orders.detected, Detect(text, product, multi).versions))
    && (Collected(entries, fetch, product, beta, test, orders.collected).Ok? && FromDetected(entries, fetch, beta, test, orders.detected).Ok? ==>
          Enumerates(orders.resolved, FromDetected(entries, fetch, beta, test, orders.detected).value))
  }

  /** The products `update_versions` asks the cache for: those of the
      collection, then, when it succeeds and the text declares versions,
      those of the re-resolution. */
  function InterfaceAsks(text: string, entries: map<Product, string>, fetch: Product -> Option<string>,
                         product: FullProduct, multi: bool, beta: bool, test: bool, orders: Orders): seq<Product>
  {
    AllVersionsAsks(entries, fetch, product, beta, test)
      + (if Collected(entries, fetch, product, beta, test, orders.collected).Ok? && Detect(text, product, multi).versions != {}
         then FromDetectedAsks(entries, fetch, beta, test, orders.detected)
         else [])
  }

  /** Lines 45 to 59 of `update_versions`: the interface value for `text`,
      asking the cache, which only learns answers. */
  method ResolveInterface(text: string, product: FullProduct, multi: bool, beta: bool, test: bool,
                          cache: VersionCache, fetch: Product -> Option<string>)
    returns (r: Result<string>, ghost orders: Orders)
    modifies cache
    ensures SameAnswers(cache.entries, old(cache.entries), fetch)
    ensures IteratesSets(text, old(cache.entries), fetch, product, multi, beta, test, orders)
    ensures r == Interface(text, old(cache.entries), fetch, product, multi, beta, test, orders)
    ensures cache.entries == StoredAll(old(cache.entries), fetch, InterfaceAsks(text, old(cache.entries), fetch, product, multi, beta, test, orders))
  {
    ghost var entries := cache.entries;
    ghost var collecting := AllVersionsAsks(entries, fetch, product, beta, test);
    var interface, collectedOrder := CollectInterface(product, beta, test, cache, fetch);
    if interface.Raise? {
      assert collecting + [] == collecting;
      return interface, Orders(collectedOrder, [], []);
    }
    ghost var detectedOrder, resolvedOrder;
    r, detectedOrder, resolvedOrder := Reresolve(text, product, multi, beta, test, interface.value, cache, fetch, entries);
    orders := Orders(collectedOrder, detectedOrder, resolvedOrder);
    StoredAllAppend(entries, fetch, collecting,
                    if Detect(text, product, multi).versions == {} then [] else FromDetectedAsks(entries, fetch, beta, test, detectedOrder));
  }

  /** Lines 51 to 59 of `update_versions`: the collected value stands unless
      the text declares versions, which are then re-resolved. */
  method Reresolve(text: string, product: FullProduct, multi: bool, beta: bool, test: bool, collected: string,
                   cache: VersionCache, fetch: Product -> Option<string>, ghost entries: map<Product, string>)
    returns (r: Result<string>, ghost detectedOrder: seq<string>, ghost resolvedOrder: seq<string>)
    requires SameAnswers(cache.entries, entries, fetch)
    modifies cache
    ensures SameAnswers(cache.entries, entries, fetch)
    ensures Enumerates(detectedOrder, Detect(text, product, multi).versions)
    ensures FromDetected(entries, fetch, beta, test, detectedOrder).Ok? ==>
      Enumerates(resolvedOrder, FromDetected(entries, fetch, beta, test, detectedOrder).value)
    ensures r == if Detect(text, product, multi).versions == {} then Ok(collected)
                 else Resolved(entries, fetch, beta, test, detectedOrder, resolvedOrder)
    ensures cache.entries == StoredAll(old(cache.entries), fetch,
                                       if Detect(text, product, multi).versions == {} then []
                                       else FromDetectedAsks(entries, fetch, beta, test, detectedOrder))
  {
    var detection := Detect(text, product, multi);
    if detection.versions == {} {
      return Ok(collected), [], [];
    }
    ghost var before := cache.entries;
    r, detectedOrder, resolvedOrder := ResolveDetected(detection.versions, beta, test, cache, fetch);
    FromDetectedSameAnswers(before, entries, fetch, beta, test, detectedOrder);
  }

  /** Lines 46 and 47 of `update_versions`: the collected versions, sorted
      and joined. */
  method CollectInterface(product: FullProduct, beta: bool, test: bool, cache: VersionCache, fetch: Product -> Option<string>)
    returns (r: Result<string>, ghost collectedOrder: seq<string>)
    modifies cache
    ensures SameAnswers(cache.entries, old(cache.entries), fetch)
    ensures AllVersions(old(cache.entries), fetch, product, beta, test).Ok? ==>
      Enumerates(collectedOrder, AllVersions(old(cache.entries), fetch, product, beta, test).value)
    ensures r == Collected(old(cache.entries), fetch, product, beta, test, collectedOrder)
    ensures cache.entries == StoredAll(old(cache.entries), fetch, AllVersionsAsks(old(cache.entries), fetch, product, beta, test))
  {
    collectedOrder := [];
    var collected := CollectAllVersions(product, beta, test, cache, fetch);
    if collected.Raise? {
      return Raise(collected.error), collectedOrder;
    }
    r, collectedOrder := SortVersions(collected.value);
  }

  /** Lines 55 to 59 of `update_versions`: the versions resolved from the
      detected ones, sorted and joined. */
  method ResolveDetected(detected: set<string>, beta: bool, test: bool, cache: VersionCache, fetch: Product -> Option<string>)
    returns (r: Result<string>, ghost detectedOrder: seq<string>, ghost resolvedOrder: seq<string>)
    modifies cache
    ensures SameAnswers(cache.entries, old(cache.entries), fetch)
    ensures Enumerates(detectedOrder, detected)
    ensures FromDetected(old(cache.entries), fetch, beta, test, detectedOrder).Ok? ==>
      Enumerates(resolvedOrder, FromDetected(old(cache.entries), fetch, beta, test, detectedOrder).value)
    ensures r == Resolved(old(cache.entries), fetch, beta, test, detectedOrder, resolvedOrder)
    ensures cache.entries == StoredAll(old(cache.entries), fetch, FromDetectedAsks(old(cache.entries), fetch, beta, test, detectedOrder))
  {
    resolvedOrder := [];
    var resolved;
    resolved, detectedOrder := GetVersionsFromDetected(detected, beta, test, cache, fetch);
    if resolved.Raise? {
      return Raise(resolved.error), detectedOrder, resolvedOrder;
    }
    r, resolvedOrder := SortVersions(resolved.value);
  }

  /** The versions are integers, in ascending order. */
  predicate Ascending(listed: seq<string>) {
    (forall i | 0 <= i < |listed| :: ParseInt(listed[i]).Ok?)
    && forall i, j | 0 <= i < j < |listed| :: ParseInt(listed[i]).value <= ParseInt(listed[j]).value
  }

  /** `interface` lists, in ascending order, versions the service answered. */
  ghost predicate ListsServiceVersions(entries: map<Product, string>, fetch: Product -> Option<string>, interface: string) {
    exists listed: seq<string> ::
      interface == Join(listed, ", ") && Ascending(listed)
      && forall i | 0 <= i < |listed| :: FromService(entries, fetch, listed[i])
  }

  /** Sorting a set of service versions lists service versions. */
  lemma SortedFromService(entries: map<Product, string>, fetch: Product -> Option<string>, vs: set<string>, order: seq<string>)
    requires Enumerates(order, vs) && AllFromService(entries, fetch, vs)
    requires SortedInterface(order).Ok?
    ensures ListsServiceVersions(entries, fetch, SortedInterface(order).value)
  {
    SortedInterfaceMeaning(order);
    var listed := VersionsOf(SortKeyed(KeyAll(order).value));
    forall i | 0 <= i < |listed|
      ensures FromService(entries, fetch, listed[i])
    {
      assert listed[i] in multiset(order);
    }
    assert Ascending(listed);
  }

  /** The collected versions are all service versions. */
  lemma AllVersionsFromService(entries: map<Product, string>, fetch: Product -> Option<string>,
                               product: FullProduct, beta: bool, test: bool)
    requires AllVersions(entries, fetch, product, beta, test).Ok?
    ensures AllFromService(entries, fetch, AllVersions(entries, fetch, product, beta, test).value)
  {
    forall v | v in AllVersions(entries, fetch, product, beta, test).value
      ensures FromService(entries, fetch, v)
    {
      AllVersionsMembers(entries, fetch, product, beta, test, v);
    }
  }

  /** Whatever the iteration orders, the interface value written lists, in
      ascending integer order, only versions the service answered: the file's
      own numbers are never copied into it. */
  lemma InterfaceFromService(text: string, entries: map<Product, string>, fetch: Product -> Option<string>,
                             product: FullProduct, multi: bool, beta: bool, test: bool, orders: Orders)
    requires IteratesSets(text, entries, fetch, product, multi, beta, test, orders)
    requires Interface(text, entries, fetch, product, multi, beta, test, orders).Ok?
    ensures ListsServiceVersions(entries, fetch, Interface(text, entries, fetch, product, multi, beta, test, orders).value)
  {
    var all := AllVersions(entries, fetch, product, beta, test);
    if Detect(text, product, multi).versions == {} {
      AllVersionsFromService(entries, fetch, product, beta, test);
      SortedFromService(entries, fetch, all.value, orders.collected);
    } else {
      var resolved := FromDetected(entries, fetch, beta, test, orders.detected);
      FromDetectedCovers(entries, fetch, beta, test, orders.detected);
      SortedFromService(entries, fetch, resolved.value, orders.resolved);
    }
  }

  /** A version the service cannot give for the file's own flavor ends the
      run with that error before the file is looked at. */
  lemma ServiceFailureAborts(text: string, entries: map<Product, string>, fetch: Product -> Option<string>,
                             product: FullProduct, multi: bool, beta: bool, test: bool, orders: Orders)
    requires Lookup(entries, fetch, product).Raise?
    ensures UpdatedText(text, entries, fetch, product, multi, beta, test, orders) == Raise(Lookup(entries, fetch, product).error)
  {
  }

  /** A retail file that does not list several versions on one base line
      declares nothing to re-resolve: it gets the collected versions. */
  lemma RetailUsesCollected(text: string, entries: map<Product, string>, fetch: Product -> Option<string>,
                            multi: bool, beta: bool, test: bool, orders: Orders)
    requires multi || FirstCommaBaseLine(Split(text, '\n')).None?
    requires AllVersions(entries, fetch, Wow, beta, test).Ok?
    ensures Interface(text, entries, fetch, Wow, multi, beta, test, orders) == SortedInterface(orders.collected)
  {
  }

  /** A text with no interface directive at all is never rewritten. */
  lemma UnchangedWithoutDirectives(text: string, entries: map<Product, string>, fetch: Product -> Option<string>,
                                   product: FullProduct, multi: bool, beta: bool, test: bool, orders: Orders)
    requires forall i, d | 0 <= i < |Split(text, '\n')| && d in ALL_DIRECTIVES :: !MatchesDirective(Split(text, '\n')[i], d)
    requires UpdatedText(text, entries, fetch, product, multi, beta, test, orders).Ok?
    ensures UpdatedText(text, entries, fetch, product, multi, beta, test, orders).value == text
  {
    var interface := Interface(text, entries, fetch, product, multi, beta, test, orders).value;
    var slm := Detect(text, product, multi).singleLineMulti;
    ContentUpdater.UpdateWithoutTargets(text, product, interface, multi, slm);
  }

  /** Two caches that answer alike collect the same versions ... */
  lemma AllVersionsSameAnswers(a: map<Product, string>, b: map<Product, string>, fetch: Product -> Option<string>,
                               product: FullProduct, beta: bool, test: bool)
    requires SameAnswers(a, b, fetch)
    ensures AllVersions(a, fetch, product, beta, test) == AllVersions(b, fetch, product, beta, test)
  {
    assert Lookup(a, fetch, product) == Lookup(b, fetch, product);
    if Lookup(a, fetch, product).Ok? {
      var base := Lookup(a, fetch, product).value;
      AddNewerSameAnswers(a, b, fetch, AboveString(base), Candidates(product, beta, test), {base});
    }
  }

  /** ... and make the same run of `update_versions`. */
  lemma UpdatedTextSameAnswers(text: string, a: map<Product, string>, b: map<Product, string>, fetch: Product -> Option<string>,
                               product: FullProduct, multi: bool, beta: bool, test: bool, orders: Orders)
    requires SameAnswers(a, b, fetch)
    ensures UpdatedText(text, a, fetch, product, multi, beta, test, orders) == UpdatedText(text, b, fetch, product, multi, beta, test, orders)
    ensures IteratesSets(text, a, fetch, product, multi, beta, test, orders) == IteratesSets(text, b, fetch, product, multi, beta, test, orders)
  {
    InterfaceSameAnswers(text, a, b, fetch, product, multi, beta, test, orders);
    IteratesSetsSameAnswers(text, a, b, fetch, product, multi, beta, test, orders);
  }

  lemma InterfaceSameAnswers(text: string, a: map<Product, string>, b: map<Product, string>, fetch: Product -> Option<string>,
                             product: FullProduct, multi: bool, beta: bool, test: bool, orders: Orders)
    requires SameAnswers(a, b, fetch)
    ensures Interface(text, a, fetch, product, multi, beta, test, orders) == Interface(text, b, fetch, product, multi, beta, test, orders)
  {
    AllVersionsSameAnswers(a, b, fetch, product, beta, test);
    FromDetectedSameAnswers(a, b, fetch, beta, test, orders.detected);
  }

  lemma IteratesSetsSameAnswers(text: string, a: map<Product, string>, b: map<Product, string>, fetch: Product -> Option<string>,
                                product: FullProduct, multi: bool, beta: bool, test: bool, orders: Orders)
    requires SameAnswers(a, b, fetch)
    ensures IteratesSets(text, a, fetch, product, multi, beta, test, orders) == IteratesSets(text, b, fetch, product, multi, beta, test, orders)
  {
    AllVersionsSameAnswers(a, b, fetch, product, beta, test);
    FromDetectedSameAnswers(a, b, fetch, beta, test, orders.detected);
  }

  /** `update_versions` always collects first, asking for the file's own
      flavor before anything else; afterwards the cache holds that flavor
      unless its request failed or did not parse, and holds no product
      that was not asked for. */
  lemma UpdateCachesFlavor(text: string, entries: map<Product, string>, fetch: Product -> Option<string>,
                           product: FullProduct, multi: bool, beta: bool, test: bool, orders: Orders, p: Product)
    ensures InterfaceAsks(text, entries, fetch, product, multi, beta, test, orders)[0] == product
    ensures var cached := StoredAll(entries, fetch, InterfaceAsks(text, entries, fetch, product, multi, beta, test, orders));
      product in cached <==> product in entries || (fetch(product).Some? && ParseVersionBody(fetch(product).value).Ok?)
    ensures var cached := StoredAll(entries, fetch, InterfaceAsks(text, entries, fetch, product, multi, beta, test, orders));
      p in cached ==> p in entries || p in InterfaceAsks(text, entries, fetch, product, multi, beta, test, orders)
  {
    var asks := InterfaceAsks(text, entries, fetch, product, multi, beta, test, orders);
    AllVersionsAsksShape(entries, fetch, product, beta, test);
    StoredAllCaches(entries, fetch, asks, product);
    StoredAllCaches(entries, fetch, asks, p);
  }

  /** `update_versions`: a missing file raises FileNotFoundError; otherwise
      the text is read with its line endings normalised, the interface
      value resolved, the directives rewritten, and the file written and
      recorded when the text changed. The cache only learns answers. */
  method UpdateVersions(file: string, product: FullProduct, multi: bool, beta: bool, test: bool,
                        cache: VersionCache, fetch: Product -> Option<string>, disk: Disk, modified: ModifiedFiles)
    returns (r: Result<bool>, ghost orders: Orders)
    modifies cache, disk, modified
    ensures SameAnswers(cache.entries, old(cache.entries), fetch)
    ensures file !in old(disk.files) ==>
      r == Raise(FileNotFoundError) && cache.entries == old(cache.entries)
      && disk.files == old(disk.files) && modified.paths == old(modified.paths)
    ensures file in old(disk.files) ==>
      var text := Normalize(old(disk.files)[file]);
      var updated := UpdatedText(text, old(cache.entries), fetch, product, multi, beta, test, orders);
      IteratesSets(text, old(cache.entries), fetch, product, multi, beta, test, orders)
      && cache.entries == StoredAll(old(cache.entries), fetch, InterfaceAsks(text, old(cache.entries), fetch, product, multi, beta, test, orders))
      && (updated.Raise? ==>
            r == Raise(updated.error) && disk.files == old(disk.files) && modified.paths == old(modified.paths))
      && (updated.Ok? && updated.value == text ==>
            r == Ok(false) && disk.files == old(disk.files) && modified.paths == old(modified.paths))
      && (updated.Ok? && updated.value != text ==>
            r == Ok(true) && disk.files == old(disk.files)[file := updated.value]
            && modified.paths == old(modified.paths) + [file])
  {
    if file !in disk.files {
      return Raise(FileNotFoundError), Orders([], [], []);
    }
    // Reading in text mode already turns every line break into a newline.
    var read := Normalize(disk.files[file]);
    NormalizeIdempotent(disk.files[file]);
    var text := Normalize(read);
    var interface;
    interface, orders := ResolveInterface(text, product, multi, beta, test, cache, fetch);
    if interface.Raise? {
      return Raise(interface.error), orders;
    }
    var detection := Detect(text, product, multi);
    var value := interface.value;
    var updated := ContentUpdater.UpdateInterfaceContent(text, product, value, multi, detection.singleLineMulti);
    WriteFileIfChanged(file, text, updated, disk, modified);
    r := Ok(updated != text);
  }
}

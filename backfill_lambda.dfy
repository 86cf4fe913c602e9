/**
 * The backfill Lambda: it filters a listed batch of objects, routes each survivor to the
 * queue of the replication rule whose prefix it falls under, and sends one synthetic
 * ObjectCreated event per object, in batches of ten. DynamoDB, STS, SQS and the clock
 * are collaborators whose answers are parameters.
 */
module BackfillLambda {
  import opened Wrappers
  import opened Strings
  import opened Records
  import opened S3Events
  import opened DynamoDbUtils

  /* ---------------------------------------------------------------------------------- */
  /* filter_objects                                                                     */
  /* ---------------------------------------------------------------------------------- */

  /** One listed object of the batch input. */
  datatype Item = Item(key: string, lastModified: int, etag: string, size: int)

  /** The execution's filters; a falsy value (None, '', 0) switches a filter off. */
  datatype Filters = Filters(prefix: Option<string>, suffix: Option<string>, startEpoch: Option<int>, endEpoch: Option<int>)

  predicate EpochSet(e: Option<int>) {
    e.Some? && e.value != 0
  }

  /**
   * The filters an item passes: not a folder marker, under the prefix, with the suffix,
   * and modified within the inclusive epoch bounds.
   */
  predicate Passes(item: Item, f: Filters) {
    !EndsWith(item.key, "/") &&
    (Truthy(f.prefix) ==> StartsWith(item.key, f.prefix.value)) &&
    (Truthy(f.suffix) ==> EndsWith(item.key, f.suffix.value)) &&
    (EpochSet(f.startEpoch) ==> item.lastModified >= f.startEpoch.value) &&
    (EpochSet(f.endEpoch) ==> item.lastModified <= f.endEpoch.value)
  }

  /** The passing items, in input order. */
  function Filtered(items: seq<Item>, f: Filters): (kept: seq<Item>)
    ensures |kept| <= |items|
  {
    if |items| == 0 then []
    else
      var last := items[|items| - 1];
      Filtered(items[..|items| - 1], f) + (if Passes(last, f) then [last] else [])
  }

  /** An item is kept exactly when it is listed and passes every filter. */
  lemma {:induction false} FilteredMembership(items: seq<Item>, f: Filters, x: Item)
    ensures x in Filtered(items, f) <==> x in items && Passes(x, f)
  {
    if |items| > 0 {
      var init := items[..|items| - 1];
      FilteredMembership(init, f, x);
      assert items == init + [items[|items| - 1]];
    }
  }

  /** With every filter off, only folder markers are dropped. */
  lemma {:induction false} NoFiltersKeepsFiles(items: seq<Item>)
    requires forall i :: 0 <= i < |items| ==> !EndsWith(items[i].key, "/")
    ensures Filtered(items, Filters(None, Some(""), Some(0), None)) == items
  {
    if |items| > 0 {
      NoFiltersKeepsFiles(items[..|items| - 1]);
      assert items == items[..|items| - 1] + [items[|items| - 1]];
    }
  }

  /** One more listed item extends the kept list by that item exactly when it passes. */
  lemma FilteredSnoc(items: seq<Item>, i: nat, f: Filters)
    requires i < |items|
    ensures Filtered(items[..i + 1], f) == Filtered(items[..i], f) + (if Passes(items[i], f) then [items[i]] else [])
  {
    assert items[..i + 1][..i] == items[..i];
  }

  /** The first check an item fails, in the order they are applied. */
  datatype Reason = Directory | OutsidePrefix | WrongSuffix | TooOld | TooNew

  function DropReason(item: Item, f: Filters): (r: Option<Reason>)
    ensures r.None? <==> Passes(item, f)
  {
    if EndsWith(item.key, "/") then Some(Directory)
    else if Truthy(f.prefix) && !StartsWith(item.key, f.prefix.value) then Some(OutsidePrefix)
    else if Truthy(f.suffix) && !EndsWith(item.key, f.suffix.value) then Some(WrongSuffix)
    else if EpochSet(f.startEpoch) && item.lastModified < f.startEpoch.value then Some(TooOld)
    else if EpochSet(f.endEpoch) && item.lastModified > f.endEpoch.value then Some(TooNew)
    else None
  }

  /** How many items each check dropped. */
  datatype FilterStats = FilterStats(directories: nat, prefix: nat, suffix: nat, start: nat, end: nat)

  function Dropped(s: FilterStats): nat {
    s.directories + s.prefix + s.suffix + s.start + s.end
  }

  /** `filter_objects`: the filters in order, each one dropping and counting the item. */
  method FilterObjects(items: seq<Item>, f: Filters) returns (kept: seq<Item>, stats: FilterStats)
    ensures kept == Filtered(items, f)
    ensures |kept| + Dropped(stats) == |items|
  {
    kept := [];
    var directories, prefix, suffix, start, end := 0, 0, 0, 0, 0;
    var i := 0;
    while i < |items|
      invariant 0 <= i <= |items|
      invariant kept == Filtered(items[..i], f)
      invariant |kept| + directories + prefix + suffix + start + end == i
    {
      FilteredSnoc(items, i, f);
      var reason := DropReason(items[i], f);
      match reason {
        case Some(Directory) => directories := directories + 1;
        case Some(OutsidePrefix) => prefix := prefix + 1;
        case Some(WrongSuffix) => suffix := suffix + 1;
        case Some(TooOld) => start := start + 1;
        case Some(TooNew) => end := end + 1;
        case None => kept := kept + [items[i]];
      }
      i := i + 1;
    }
    stats := FilterStats(directories, prefix, suffix, start, end);
    assert items[..i] == items;
  }

  /* ---------------------------------------------------------------------------------- */
  /* find_best_matching_prefix                                                          */
  /* ---------------------------------------------------------------------------------- */

  /** A configured prefix a runtime prefix falls under: non-empty and a string prefix of it. */
  predicate Parent(runtime: string, c: string) {
    c != "" && StartsWith(runtime, c)
  }

  /** The first configured prefix, in list order, that the runtime prefix falls under. */
  function FirstParent(runtime: string, configured: seq<string>): (p: Option<string>)
    ensures p.None? <==> forall k :: 0 <= k < |configured| ==> !Parent(runtime, configured[k])
    ensures p.Some? ==> exists k :: 0 <= k < |configured| && configured[k] == p.value && Parent(runtime, p.value) &&
                                    forall j :: 0 <= j < k ==> !Parent(runtime, configured[j])
  {
    if |configured| == 0 then None
    else
      var c := configured[0];
      if c != "" && (StartsWith(runtime, c + "/") || StartsWith(runtime, c)) then
        assert Parent(runtime, c);
        Some(c)
      else
        var rest := FirstParent(runtime, configured[1..]);
        assert forall k :: 1 <= k < |configured| ==> configured[k] == configured[1..][k - 1];
        if rest.Some? then
          var k :| 0 <= k < |configured[1..]| && configured[1..][k] == rest.value && Parent(runtime, rest.value) &&
                   forall j :: 0 <= j < k ==> !Parent(runtime, configured[1..][j]);
          assert configured[k + 1] == rest.value;
          rest
        else rest
  }

  /**
   * `find_best_matching_prefix`: '' for no configured prefixes; otherwise an exact match,
   * then the first parent in list order, then the catch-all '', then the first entry.
   */
  function FindBestMatchingPrefix(runtime: Option<string>, configured: seq<string>): (p: string)
    ensures configured == [] ==> p == ""
    ensures configured != [] ==> p in configured
  {
    if |configured| == 0 then ""
    else
      var rt := runtime.GetOr("");
      if rt in configured then rt
      else if rt != "" && FirstParent(rt, configured).Some? then FirstParent(rt, configured).value
      else if "" in configured then ""
      else configured[0]
  }

  /**
   * The choice in full: an exact match wins; otherwise a parent wins, and it is the first
   * one listed; otherwise the catch-all; otherwise the first entry.
   */
  lemma BestPrefixChoice(runtime: Option<string>, configured: seq<string>)
    requires configured != []
    ensures var rt, p := runtime.GetOr(""), FindBestMatchingPrefix(runtime, configured);
            (rt in configured ==> p == rt) &&
            (rt !in configured && (exists k :: 0 <= k < |configured| && Parent(rt, configured[k])) ==>
               Parent(rt, p) && exists k :: 0 <= k < |configured| && configured[k] == p &&
                                            forall j :: 0 <= j < k ==> !Parent(rt, configured[j])) &&
            (rt !in configured && (forall k :: 0 <= k < |configured| ==> !Parent(rt, configured[k])) ==>
               p == (if "" in configured then "" else configured[0]))
  {
    var rt := runtime.GetOr("");
    if rt == "" {
      assert forall k :: 0 <= k < |configured| ==> !Parent(rt, configured[k]);
    }
  }

  /** The first parent listed wins, not the longest: 'data/2024/x' against ['data', 'data/2024'] gives 'data'. */
  lemma FirstParentNotLongest()
    ensures FindBestMatchingPrefix(Some("data/2024/x"), ["data", "data/2024"]) == "data"
  {
    var configured := ["data", "data/2024"];
    assert "data/2024/x"[..4] == "data";
    assert "data/2024/x" != configured[0] && "data/2024/x" != configured[1];
  }

  /* ---------------------------------------------------------------------------------- */
  /* Configured prefixes from parameter names                                           */
  /* ---------------------------------------------------------------------------------- */

  /** The prefix a parameter name stands for: 3 '/'-parts give '', 4 give the last; any other name is ignored. */
  function PrefixOfName(name: string): Option<string> {
    var parts := Split(name, '/');
    if |parts| == 3 then Some("") else if |parts| == 4 then Some(parts[3]) else None
  }

  /** The prefixes of the names, in scan order, ignored names left out. */
  function PrefixesOf(names: seq<string>): (ps: seq<string>)
    ensures |ps| <= |names|
  {
    if |names| == 0 then []
    else
      var p := PrefixOfName(names[|names| - 1]);
      PrefixesOf(names[..|names| - 1]) + (if p.Some? then [p.value] else [])
  }

  /** The loop reading prefixes out of the scanned names. */
  method ConfiguredPrefixes(names: seq<string>) returns (ps: seq<string>)
    ensures ps == PrefixesOf(names)
  {
    ps := [];
    var i := 0;
    while i < |names|
      invariant 0 <= i <= |names|
      invariant ps == PrefixesOf(names[..i])
    {
      assert names[..i + 1][..i] == names[..i];
      var parts := Split(names[i], '/');
      if |parts| == 3 {
        ps := ps + [""];
      } else if |parts| == 4 {
        ps := ps + [parts[3]];
      }
      i := i + 1;
    }
    assert names[..i] == names;
  }

  /** A prefix is read off when a scanned name yields it. */
  lemma {:induction false} PrefixesOfMembership(names: seq<string>, n: string)
    requires n in names && PrefixOfName(n).Some?
    ensures PrefixOfName(n).value in PrefixesOf(names)
  {
    var init := names[..|names| - 1];
    assert names == init + [names[|names| - 1]];
    if n != names[|names| - 1] {
      PrefixesOfMembership(init, n);
    }
  }

  /** '/{stack}/{bucket}' splits into '', the stack and the bucket when neither holds a '/'. */
  lemma BaseNameParts(stack: string, bucket: string)
    requires '/' !in stack && '/' !in bucket
    ensures Split("/" + stack + "/" + bucket, '/') == ["", stack, bucket]
  {
    assert Split("", '/') == [""];
    SplitAppend("", stack, '/');
    assert "" + ['/'] + stack == "/" + stack;
    SplitAppend("/" + stack, bucket, '/');
    assert ("/" + stack) + ['/'] + bucket == "/" + stack + "/" + bucket;
  }

  /** A string with a separator splits into at least two pieces; one without it is a single piece. */
  lemma SplitPieces(s: string)
    ensures '/' !in s ==> Split(s, '/') == [s]
    ensures '/' in s ==> |Split(s, '/')| >= 2
  {
    LastIndexOfFound(s, '/');
  }

  /**
   * The names the seeder writes parse back to their prefix when stack, bucket and prefix
   * are single path segments; a prefix of several segments is dropped.
   */
  lemma SeededNameParses(stack: string, bucket: string, prefix: string)
    requires '/' !in stack && '/' !in bucket
    ensures PrefixOfName(ParamName(stack, bucket, "")) == Some("")
    ensures prefix != "" && '/' !in prefix ==> PrefixOfName(ParamName(stack, bucket, prefix)) == Some(prefix)
    ensures prefix != "" && '/' in prefix ==> PrefixOfName(ParamName(stack, bucket, prefix)) == None
  {
    var base := "/" + stack + "/" + bucket;
    BaseNameParts(stack, bucket);
    if prefix != "" {
      assert ParamName(stack, bucket, prefix) == base + ['/'] + prefix;
      SplitConcat(base, prefix, '/');
      SplitPieces(prefix);
    }
  }

  /* ---------------------------------------------------------------------------------- */
  /* group_objects_by_prefix                                                            */
  /* ---------------------------------------------------------------------------------- */

  /** The group of objects no configured prefix takes. */
  const Unmatched := "UNMATCHED"

  /** The non-empty configured prefixes, in list order. */
  function NonEmpty(ps: seq<string>): (r: seq<string>)
    ensures forall p :: p in r <==> p in ps && p != ""
  {
    if |ps| == 0 then []
    else
      var init := ps[..|ps| - 1];
      assert ps == init + [ps[|ps| - 1]];
      NonEmpty(init) + (if ps[|ps| - 1] != "" then [ps[|ps| - 1]] else [])
  }

  predicate Descending(s: seq<string>) {
    forall i, j :: 0 <= i < j < |s| ==> |s[i]| >= |s[j]|
  }

  /** Places `p` after every entry at least as long, so equal lengths keep their arrival order. */
  function Insert(p: string, s: seq<string>): (r: seq<string>)
    ensures multiset(r) == multiset(s) + multiset{p}
  {
    if |s| == 0 then [p]
    else if |s[0]| >= |p| then
      assert s == [s[0]] + s[1..];
      [s[0]] + Insert(p, s[1..])
    else [p] + s
  }

  /** On a longest-first list, inserting a shorter `p` after the head leaves nothing longer than the head. */
  lemma HeadBoundsInsert(p: string, s: seq<string>)
    requires Descending(s) && |s| > 0 && |s[0]| >= |p|
    ensures forall k :: 0 <= k < |Insert(p, s[1..])| ==> |Insert(p, s[1..])[k]| <= |s[0]|
  {
    var rest := Insert(p, s[1..]);
    forall k | 0 <= k < |rest|
      ensures |rest[k]| <= |s[0]|
    {
      assert rest[k] in multiset(rest);
      if rest[k] != p {
        assert rest[k] in multiset(s[1..]);
        var m :| 0 <= m < |s[1..]| && s[1..][m] == rest[k];
        assert s[m + 1] == rest[k];
      }
    }
  }

  lemma {:induction false} InsertDescending(p: string, s: seq<string>)
    requires Descending(s)
    ensures Descending(Insert(p, s))
  {
    if |s| > 0 && |s[0]| >= |p| {
      var rest := Insert(p, s[1..]);
      InsertDescending(p, s[1..]);
      HeadBoundsInsert(p, s);
      var r := [s[0]] + rest;
      forall i, j | 0 <= i < j < |r|
        ensures |r[i]| >= |r[j]|
      {
        if i == 0 {
          assert r[j] == rest[j - 1];
        } else {
          assert r[i] == rest[i - 1] && r[j] == rest[j - 1];
        }
      }
    }
  }

  /** `sorted(ps, key=len, reverse=True)`: longest first, ties in list order. */
  function ByLength(ps: seq<string>): (r: seq<string>)
    ensures multiset(r) == multiset(ps)
  {
    if |ps| == 0 then []
    else
      var init := ps[..|ps| - 1];
      assert ps == init + [ps[|ps| - 1]];
      Insert(ps[|ps| - 1], ByLength(init))
  }

  /** The sort puts longer prefixes first. */
  lemma {:induction false} ByLengthDescending(ps: seq<string>)
    ensures Descending(ByLength(ps))
  {
    if |ps| > 0 {
      ByLengthDescending(ps[..|ps| - 1]);
      InsertDescending(ps[|ps| - 1], ByLength(ps[..|ps| - 1]));
    }
  }

  /** The first listed prefix the key starts with. */
  function FirstMatch(key: string, s: seq<string>): (m: Option<string>)
    ensures m.Some? ==> m.value in s && StartsWith(key, m.value)
    ensures m.None? ==> forall i :: 0 <= i < |s| ==> !StartsWith(key, s[i])
  {
    if |s| == 0 then None
    else if StartsWith(key, s[0]) then Some(s[0])
    else
      var m := FirstMatch(key, s[1..]);
      assert forall i :: 1 <= i < |s| ==> s[i] == s[1..][i - 1];
      m
  }

  /** On a longest-first list the first match is a longest match. */
  lemma {:induction false} FirstMatchLongest(key: string, s: seq<string>, q: string)
    requires Descending(s) && q in s && StartsWith(key, q)
    ensures FirstMatch(key, s).Some? && |q| <= |FirstMatch(key, s).value|
  {
    if StartsWith(key, s[0]) {
      var i :| 0 <= i < |s| && s[i] == q;
      assert i == 0 || |s[0]| >= |s[i]|;
    } else {
      assert q != s[0];
      assert q in s[1..];
      assert Descending(s[1..]) by {
        forall i, j | 0 <= i < j < |s[1..]|
          ensures |s[1..][i]| >= |s[1..][j]|
        {
          assert s[1..][i] == s[i + 1] && s[1..][j] == s[j + 1];
        }
      }
      FirstMatchLongest(key, s[1..], q);
    }
  }

  /** The group an object key joins: the first longest-first prefix it starts with, else '' if configured, else UNMATCHED. */
  function GroupOf(key: string, configured: seq<string>): (g: string)
    ensures g in configured || g == Unmatched
  {
    var sorted := ByLength(NonEmpty(configured));
    match FirstMatch(key, sorted)
    case Some(p) =>
      assert p in multiset(sorted);
      assert p in NonEmpty(configured);
      p
    case None => if "" in configured then "" else Unmatched
  }

  /**
   * An object joins the longest configured prefix its key starts with (a unique one, since
   * two prefixes of one key with the same length are equal); failing that the catch-all '',
   * failing that UNMATCHED.
   */
  lemma GroupIsLongestMatch(key: string, configured: seq<string>)
    ensures (exists q :: q in configured && q != "" && StartsWith(key, q)) ==>
              var g := GroupOf(key, configured);
              g in configured && g != "" && StartsWith(key, g) &&
              forall q :: q in configured && q != "" && StartsWith(key, q) ==> |q| <= |g| && (|q| == |g| ==> q == g)
    ensures (forall q :: q in configured && q != "" ==> !StartsWith(key, q)) ==>
              GroupOf(key, configured) == (if "" in configured then "" else Unmatched)
  {
    var sorted := ByLength(NonEmpty(configured));
    ByLengthDescending(NonEmpty(configured));
    if q0 :| q0 in configured && q0 != "" && StartsWith(key, q0) {
      assert q0 in multiset(sorted);
      FirstMatchLongest(key, sorted, q0);
      var g := FirstMatch(key, sorted).value;
      assert g in multiset(sorted);
      forall q | q in configured && q != "" && StartsWith(key, q)
        ensures |q| <= |g| && (|q| == |g| ==> q == g)
      {
        assert q in multiset(sorted);
        FirstMatchLongest(key, sorted, q);
        if |q| == |g| {
          assert q == key[..|q|] == g;
        }
      }
    } else {
      forall i | 0 <= i < |sorted|
        ensures !StartsWith(key, sorted[i])
      {
        assert sorted[i] in multiset(sorted);
        assert sorted[i] in NonEmpty(configured);
      }
    }
  }

  /** The objects `keep` accepts, in input order. */
  function Where(objects: seq<Item>, keep: Item -> bool): (ms: seq<Item>)
    ensures |ms| <= |objects|
  {
    if |objects| == 0 then []
    else
      var last := objects[|objects| - 1];
      Where(objects[..|objects| - 1], keep) + (if keep(last) then [last] else [])
  }

  lemma {:induction false} WhereMembership(objects: seq<Item>, keep: Item -> bool, x: Item)
    ensures x in Where(objects, keep) <==> x in objects && keep(x)
  {
    if |objects| > 0 {
      var init := objects[..|objects| - 1];
      WhereMembership(init, keep, x);
      assert objects == init + [objects[|objects| - 1]];
    }
  }

  /** The objects of one group, in input order. */
  function Members(objects: seq<Item>, g: string, configured: seq<string>): (ms: seq<Item>)
    ensures |ms| <= |objects|
  {
    Where(objects, (it: Item) => GroupOf(it.key, configured) == g)
  }

  /** Each object is in exactly one group: the one `GroupOf` names. */
  lemma MembersMembership(objects: seq<Item>, g: string, configured: seq<string>, x: Item)
    ensures x in Members(objects, g, configured) <==> x in objects && GroupOf(x.key, configured) == g
  {
    WhereMembership(objects, (it: Item) => GroupOf(it.key, configured) == g, x);
  }

  lemma MembersSnoc(objects: seq<Item>, i: nat, g: string, configured: seq<string>)
    requires i < |objects|
    ensures Members(objects[..i + 1], g, configured) ==
            Members(objects[..i], g, configured) + (if GroupOf(objects[i].key, configured) == g then [objects[i]] else [])
  {
    assert objects[..i + 1][..i] == objects[..i];
  }

  /** The keys of the grouping: every configured prefix, and UNMATCHED. */
  function GroupKeys(configured: seq<string>): set<string> {
    (set p | p in configured) + {Unmatched}
  }

  /** The inner search of `group_objects_by_prefix`: longest-first prefixes, then the catch-all, then UNMATCHED. */
  method MatchGroup(key: string, sorted: seq<string>, configured: seq<string>) returns (target: string)
    requires sorted == ByLength(NonEmpty(configured))
    ensures target == GroupOf(key, configured)
  {
    var matched := false;
    target := "";
    var j := 0;
    while j < |sorted| && !matched
      invariant 0 <= j <= |sorted|
      invariant !matched ==> FirstMatch(key, sorted) == FirstMatch(key, sorted[j..])
      invariant matched ==> FirstMatch(key, sorted) == Some(target)
      decreases |sorted| - j, if matched then 0 else 1
    {
      assert sorted[j..][1..] == sorted[j + 1..];
      if StartsWith(key, sorted[j] + "/") || StartsWith(key, sorted[j]) {
        assert StartsWith(key, sorted[j]) by {
          if StartsWith(key, sorted[j] + "/") {
            assert key[..|sorted[j]|] == (sorted[j] + "/")[..|sorted[j]|];
          }
        }
        target := sorted[j];
        matched := true;
      } else {
        j := j + 1;
      }
    }
    if !matched && "" in configured {
      target := "";
      matched := true;
    }
    if !matched {
      target := Unmatched;
    }
  }

  /** Appending object `i` to its group keeps every group equal to its members so far. */
  lemma GroupStep(objects: seq<Item>, i: nat, configured: seq<string>, groups: map<string, seq<Item>>, target: string)
    requires i < |objects|
    requires groups.Keys == GroupKeys(configured)
    requires forall g :: g in groups ==> groups[g] == Members(objects[..i], g, configured)
    requires target == GroupOf(objects[i].key, configured)
    ensures target in groups && groups[target := groups[target] + [objects[i]]].Keys == groups.Keys
    ensures forall g :: g in groups ==> groups[target := groups[target] + [objects[i]]][g] == Members(objects[..i + 1], g, configured)
  {
    forall g | g in groups
      ensures groups[target := groups[target] + [objects[i]]][g] == Members(objects[..i + 1], g, configured)
    {
      MembersSnoc(objects, i, g, configured);
    }
  }

  /** `group_objects_by_prefix`: an empty group per key, then each object appended to its group. */
  method GroupObjectsByPrefix(objects: seq<Item>, configured: seq<string>) returns (groups: map<string, seq<Item>>)
    ensures groups.Keys == GroupKeys(configured)
    ensures forall g :: g in groups ==> groups[g] == Members(objects, g, configured)
  {
    groups := map g | g in GroupKeys(configured) :: [];
    assert objects[..0] == [];
    var sorted := ByLength(NonEmpty(configured));
    var i := 0;
    while i < |objects|
      invariant 0 <= i <= |objects|
      invariant groups.Keys == GroupKeys(configured)
      invariant forall g :: g in groups ==> groups[g] == Members(objects[..i], g, configured)
    {
      var target := MatchGroup(objects[i].key, sorted, configured);
      GroupStep(objects, i, configured, groups, target);
      groups := groups[target := groups[target] + [objects[i]]];
      i := i + 1;
    }
    assert objects[..i] == objects;
  }

  /* ---------------------------------------------------------------------------------- */
  /* Queue names                                                                        */
  /* ---------------------------------------------------------------------------------- */

  /** `construct_queue_url_from_prefix`'s name: 'source-{bucket}', plus '-{prefix}' when the prefix is non-empty. */
  function QueueName(bucket: string, prefix: string): string {
    if prefix != "" then "source-" + bucket + "-" + prefix else "source-" + bucket
  }

  /** Within one bucket, distinct configured prefixes are served by distinct queues. */
  lemma QueueNameInjective(bucket: string, p: string, q: string)
    requires QueueName(bucket, p) == QueueName(bucket, q)
    ensures p == q
  {
    var base := "source-" + bucket;
    var n := QueueName(bucket, p);
    assert p != "" <==> |n| > |base|;
    assert q != "" <==> |n| > |base|;
    if p != "" {
      assert p == n[|base| + 1..];
      assert q == n[|base| + 1..];
    }
  }

  /** Stripping '-' from both ends keeps only characters of the input and leaves no dash at either end. */
  lemma StripDashes(s: string)
    ensures forall ch :: ch in Strip(s, '-') ==> ch in s
    ensures var r := Strip(s, '-'); r != [] ==> r[0] != '-' && r[|r| - 1] != '-'
  {
    var right := RStrip(s, '-');
    var r := LStrip(right, '-');
    forall ch | ch in r
      ensures ch in s
    {
      var k :| 0 <= k < |r| && r[k] == ch;
      assert r[k] == right[|right| - |r| + k] == s[|right| - |r| + k];
    }
    if r != [] {
      assert r[|r| - 1] == right[|right| - 1];
    }
  }

  /** The fallback's prefix text: '/' and '_' become '-', then leading and trailing '-' go. */
  function SanitizedPrefix(p: string): (r: string)
    ensures '/' !in r && '_' !in r
    ensures r != [] ==> r[0] != '-' && r[|r| - 1] != '-'
  {
    var dashed := ReplaceChar(ReplaceChar(p, '/', '-'), '_', '-');
    assert '/' !in dashed && '_' !in dashed by {
      forall k | 0 <= k < |dashed|
        ensures dashed[k] != '/' && dashed[k] != '_'
      {
        assert ReplaceChar(p, '/', '-')[k] != '/';
      }
    }
    StripDashes(dashed);
    Strip(dashed, '-')
  }

  /** A prefix with no '/' or '_' and no dash at either end survives the fallback unchanged. */
  lemma SanitizedPrefixKeepsCleanPrefix(p: string)
    requires '/' !in p && '_' !in p
    requires p != [] ==> p[0] != '-' && p[|p| - 1] != '-'
    ensures SanitizedPrefix(p) == p
  {
    assert ReplaceChar(p, '/', '-') == p;
    assert ReplaceChar(p, '_', '-') == p;
    assert RStrip(p, '-') == p;
    assert LStrip(p, '-') == p;
  }

  /** Sanitizing twice is sanitizing once. */
  lemma SanitizedPrefixIdempotent(p: string)
    ensures SanitizedPrefix(SanitizedPrefix(p)) == SanitizedPrefix(p)
  {
    SanitizedPrefixKeepsCleanPrefix(SanitizedPrefix(p));
  }

  /** `construct_sqs_queue_url`'s name: the runtime prefix, sanitized, when one is given. */
  function FallbackQueueName(bucket: string, runtime: Option<string>): string {
    if Truthy(runtime) then "source-" + bucket + "-" + SanitizedPrefix(runtime.value) else "source-" + bucket
  }

  /** Both constructions agree when the runtime prefix is a clean configured prefix. */
  lemma FallbackAgreesOnCleanPrefix(bucket: string, p: string)
    requires '/' !in p && '_' !in p
    requires p != [] ==> p[0] != '-' && p[|p| - 1] != '-'
    ensures FallbackQueueName(bucket, Some(p)) == QueueName(bucket, p)
  {
    SanitizedPrefixKeepsCleanPrefix(p);
  }

  /* ---------------------------------------------------------------------------------- */
  /* Synthetic events and batches of ten                                                */
  /* ---------------------------------------------------------------------------------- */

  /** `create_s3_event_message`: one ObjectCreated:Put record naming the bucket and the listed key. */
  function SyntheticEvent(item: Item, bucket: string): EventBody {
    EventBody(None, [EventRecord(Some("aws:s3"), Some("ObjectCreated:Put"), Some(bucket), Some(item.key))])
  }

  /**
   * The source agent reads a synthetic event as an ordinary upload: not a test event, and
   * yielding exactly the bucket and the (URL-decoded) listed key.
   */
  lemma SyntheticEventReachesAgent(item: Item, bucket: string, unquote: string -> string, handle: string)
    requires item.key != "" && bucket != ""
    ensures !IsTestEvent(Message(handle, Some(SyntheticEvent(item, bucket))))
    ensures Extracted(SyntheticEvent(item, bucket).records, unquote) == [S3Object(bucket, unquote(item.key))]
  {
    var records := SyntheticEvent(item, bucket).records;
    assert "ObjectCreated:Put"[..13] == "ObjectCreated";
    assert Extractable(records[0]);
    assert records[..0] == [];
  }

  /** The message bodies of a batch, one per object, in order. */
  function Events(batch: seq<Item>, bucket: string): (es: seq<EventBody>)
    ensures |es| == |batch|
  {
    if |batch| == 0 then [] else Events(batch[..|batch| - 1], bucket) + [SyntheticEvent(batch[|batch| - 1], bucket)]
  }

  /** What one `send_message_batch` call did: raised, or answered with its success and failure counts. */
  datatype SendResponse = Raised | Answered(successful: nat, failed: nat)

  /** The batches of at most ten that `send_to_sqs_batch` walks through. */
  function Chunks(objects: seq<Item>): (cs: seq<seq<Item>>)
    ensures |cs| == (|objects| + 9) / 10
    ensures forall k :: 0 <= k < |cs| ==> 1 <= |cs[k]| <= 10
    decreases |objects|
  {
    if |objects| == 0 then []
    else if |objects| <= 10 then [objects]
    else [objects[..10]] + Chunks(objects[10..])
  }

  function Concat(cs: seq<seq<Item>>): seq<Item> {
    if |cs| == 0 then [] else cs[0] + Concat(cs[1..])
  }

  /** The batches put back together are the objects, in order: none lost, none repeated. */
  lemma {:induction false} ChunksConcat(objects: seq<Item>)
    ensures Concat(Chunks(objects)) == objects
    decreases |objects|
  {
    if |objects| > 10 {
      var cs := Chunks(objects);
      assert cs[1..] == Chunks(objects[10..]);
      ChunksConcat(objects[10..]);
      assert objects == objects[..10] + objects[10..];
    } else if |objects| > 0 {
      assert Chunks(objects)[1..] == [];
    }
  }

  /** The messages the answers report delivered. */
  function SentOf(cs: seq<seq<Item>>, bucket: string, url: string, respond: (string, seq<EventBody>) -> SendResponse): nat {
    if |cs| == 0 then 0
    else
      (match respond(url, Events(cs[0], bucket)) case Raised => 0 case Answered(ok, _) => ok) +
      SentOf(cs[1..], bucket, url, respond)
  }

  /** The messages counted failed: the reported failures, or the whole batch when the call raised. */
  function FailedOf(cs: seq<seq<Item>>, bucket: string, url: string, respond: (string, seq<EventBody>) -> SendResponse): nat {
    if |cs| == 0 then 0
    else
      (match respond(url, Events(cs[0], bucket)) case Raised => |cs[0]| case Answered(_, bad) => bad) +
      FailedOf(cs[1..], bucket, url, respond)
  }

  /** SQS answers account for every entry it was given. */
  ghost predicate Consistent(respond: (string, seq<EventBody>) -> SendResponse) {
    forall url, es :: respond(url, es).Answered? ==> respond(url, es).successful + respond(url, es).failed == |es|
  }

  /** With consistent answers every object is counted once, as sent or as failed. */
  lemma {:induction false} EveryObjectCounted(cs: seq<seq<Item>>, bucket: string, url: string, respond: (string, seq<EventBody>) -> SendResponse)
    requires Consistent(respond)
    ensures SentOf(cs, bucket, url, respond) + FailedOf(cs, bucket, url, respond) == |Concat(cs)|
  {
    if |cs| > 0 {
      EveryObjectCounted(cs[1..], bucket, url, respond);
      var es := Events(cs[0], bucket);
      assert respond(url, es).Answered? ==> respond(url, es).successful + respond(url, es).failed == |es|;
    }
  }

  /** The objects of one queue: sent plus failed is the object count, so sent never exceeds it. */
  lemma SentAndFailedCoverObjects(objects: seq<Item>, bucket: string, url: string, respond: (string, seq<EventBody>) -> SendResponse)
    requires Consistent(respond)
    ensures SentOf(Chunks(objects), bucket, url, respond) + FailedOf(Chunks(objects), bucket, url, respond) == |objects|
    ensures SentOf(Chunks(objects), bucket, url, respond) <= |objects|
  {
    EveryObjectCounted(Chunks(objects), bucket, url, respond);
    ChunksConcat(objects);
  }

  /** The batch loop's step: the batch at `i` is the first of the remaining batches. */
  lemma ChunksFrom(objects: seq<Item>, i: nat, end: nat)
    requires i < |objects| && end == (if i + 10 <= |objects| then i + 10 else |objects|)
    ensures Chunks(objects[i..]) == [objects[i..end]] + Chunks(objects[end..])
  {
    var rest := objects[i..];
    if |rest| > 10 {
      assert rest[..10] == objects[i..end];
      assert rest[10..] == objects[end..];
    } else {
      assert rest == objects[i..end];
      assert objects[end..] == [];
    }
  }

  /** The counts of the remaining batches: the batch at `i`, then the batches after it. */
  lemma BatchCounts(objects: seq<Item>, i: nat, end: nat, bucket: string, url: string, respond: (string, seq<EventBody>) -> SendResponse)
    requires i < |objects| && end == (if i + 10 <= |objects| then i + 10 else |objects|)
    ensures SentOf(Chunks(objects[i..]), bucket, url, respond) ==
            (match respond(url, Events(objects[i..end], bucket)) case Raised => 0 case Answered(ok, _) => ok) +
            SentOf(Chunks(objects[end..]), bucket, url, respond)
    ensures FailedOf(Chunks(objects[i..]), bucket, url, respond) ==
            (match respond(url, Events(objects[i..end], bucket)) case Raised => end - i case Answered(_, bad) => bad) +
            FailedOf(Chunks(objects[end..]), bucket, url, respond)
  {
    ChunksFrom(objects, i, end);
    var cs := Chunks(objects[i..]);
    assert cs[0] == objects[i..end] && cs[1..] == Chunks(objects[end..]);
  }

  /** `send_to_sqs_batch`: one call per batch of ten, the answers summed. */
  method SendToSqsBatch(objects: seq<Item>, bucket: string, url: string, respond: (string, seq<EventBody>) -> SendResponse)
    returns (sent: nat, failed: nat)
    ensures sent == SentOf(Chunks(objects), bucket, url, respond)
    ensures failed == FailedOf(Chunks(objects), bucket, url, respond)
  {
    sent, failed := 0, 0;
    var i := 0;
    assert objects[0..] == objects;
    while i < |objects|
      invariant 0 <= i <= |objects|
      invariant sent + SentOf(Chunks(objects[i..]), bucket, url, respond) == SentOf(Chunks(objects), bucket, url, respond)
      invariant failed + FailedOf(Chunks(objects[i..]), bucket, url, respond) == FailedOf(Chunks(objects), bucket, url, respond)
    {
      var end := if i + 10 <= |objects| then i + 10 else |objects|;
      var batch := objects[i..end];
      var entries := [];
      var k := 0;
      while k < |batch|
        invariant 0 <= k <= |batch|
        invariant entries == Events(batch[..k], bucket)
      {
        assert batch[..k + 1][..k] == batch[..k];
        entries := entries + [SyntheticEvent(batch[k], bucket)];
        k := k + 1;
      }
      assert batch[..k] == batch;
      BatchCounts(objects, i, end, bucket, url, respond);
      match respond(url, entries) {
        case Raised =>
          failed := failed + |batch|;
        case Answered(ok, bad) =>
          sent := sent + ok;
          failed := failed + bad;
      }
      i := end;
    }
    assert objects[i..] == [];
  }

  /* ---------------------------------------------------------------------------------- */
  /* Parameters-table scan and queue discovery                                          */
  /* ---------------------------------------------------------------------------------- */

  /** The collaborators' answers: the environment, the parameters table, STS and SQS. */
  datatype BackfillEnv = BackfillEnv(
    stackName: Option<string>,
    tableName: Option<string>,
    table: Option<seq<string>>,
    region: string,
    account: string,
    respond: (string, seq<EventBody>) -> SendResponse)

  /** STACK_NAME, 's3-compressor' when unset. */
  function Stack(env: BackfillEnv): string {
    env.stackName.GetOr("s3-compressor")
  }

  function QueueUrl(env: BackfillEnv, name: string): string {
    "https://sqs." + env.region + ".amazonaws.com/" + env.account + "/" + name
  }

  function ScanQuery(stack: string, bucket: string): string {
    "/" + stack + "/" + bucket
  }

  /** As written: the names that begin with '/{stack}/{bucket}', with no separator required after the bucket. */
  function ScannedAsWritten(table: seq<string>, query: string): (names: seq<string>)
    ensures forall n :: n in names <==> n in table && StartsWith(n, query)
  {
    if |table| == 0 then []
    else
      var init := table[..|table| - 1];
      assert table == init + [table[|table| - 1]];
      ScannedAsWritten(init, query) + (if StartsWith(table[|table| - 1], query) then [table[|table| - 1]] else [])
  }

  /** The bucket's own entry, or an entry one separator below it. */
  predicate UnderQuery(name: string, query: string) {
    name == query || StartsWith(name, query + "/")
  }

  /** Corrected scan: only the names of the bucket itself. */
  function Scanned(table: seq<string>, query: string): (names: seq<string>)
    ensures forall n :: n in names <==> n in table && UnderQuery(n, query)
  {
    if |table| == 0 then []
    else
      var init := table[..|table| - 1];
      assert table == init + [table[|table| - 1]];
      Scanned(init, query) + (if UnderQuery(table[|table| - 1], query) then [table[|table| - 1]] else [])
  }

  /**
   * As written, the scan for bucket 'data' also returns the catch-all entry of the bucket
   * 'data-archive', which then reads as a catch-all rule of 'data'; the corrected scan
   * returns nothing.
   */
  lemma ScanTakesNeighbourBucket()
    ensures var table, query := ["/s/data-archive"], ScanQuery("s", "data");
            ScannedAsWritten(table, query) == table &&
            PrefixesOf(ScannedAsWritten(table, query)) == [""] &&
            Scanned(table, query) == []
  {
    var table, query := ["/s/data-archive"], ScanQuery("s", "data");
    assert table[0][..|query|] == query;
    assert table[0][7] == '-';
    assert !UnderQuery(table[0], query);
    BaseNameParts("s", "data-archive");
    assert table[0] == "/" + "s" + "/" + "data-archive";
    assert PrefixOfName(table[0]) == Some("");
    assert table[..0] == [];
  }

  /** A name the corrected scan returns has the queried stack and bucket as its second and third parts. */
  lemma UnderQueryParts(name: string, stack: string, bucket: string)
    requires '/' !in stack && '/' !in bucket
    requires UnderQuery(name, ScanQuery(stack, bucket))
    ensures |Split(name, '/')| >= 3 && Split(name, '/')[..3] == ["", stack, bucket]
  {
    var query := ScanQuery(stack, bucket);
    BaseNameParts(stack, bucket);
    if name != query {
      var rest := name[|query| + 1..];
      assert name == query + ['/'] + rest;
      SplitConcat(query, rest, '/');
    }
  }

  /** The corrected scan returns a seeded name exactly when it belongs to the queried bucket. */
  lemma ScannedNamesBelongToBucket(stack: string, b: string, prefix: string, bucket: string)
    requires '/' !in stack && '/' !in b && '/' !in bucket
    ensures UnderQuery(ParamName(stack, b, prefix), ScanQuery(stack, bucket)) <==> b == bucket
  {
    var name := ParamName(stack, b, prefix);
    var own := "/" + stack + "/" + b;
    BaseNameParts(stack, b);
    if prefix != "" {
      assert name == own + ['/'] + prefix;
      SplitConcat(own, prefix, '/');
    }
    assert Split(name, '/')[2] == b;
    if UnderQuery(name, ScanQuery(stack, bucket)) {
      UnderQueryParts(name, stack, bucket);
    }
    if b == bucket && prefix != "" {
      assert name[..|own| + 1] == own + "/";
    }
  }

  /** A name under the query also begins with it, so the scan as written returns it too. */
  lemma UnderQueryBeginsWith(name: string, query: string)
    requires UnderQuery(name, query)
    ensures StartsWith(name, query)
  {
    if name != query {
      assert name[..|query|] == (query + "/")[..|query|];
    }
  }

  /**
   * The scan as written and the corrected one return the same names, in the same order,
   * whenever no name in the table continues the query with a character other than '/'.
   */
  lemma {:induction false} ScansAgreeWithoutNeighbours(table: seq<string>, query: string)
    requires forall n :: n in table && StartsWith(n, query) ==> UnderQuery(n, query)
    ensures ScannedAsWritten(table, query) == Scanned(table, query)
  {
    if |table| > 0 {
      var init, last := table[..|table| - 1], table[|table| - 1];
      assert table == init + [last];
      ScansAgreeWithoutNeighbours(init, query);
      if UnderQuery(last, query) {
        UnderQueryBeginsWith(last, query);
      }
    }
  }

  /** `discover_sqs_queue_url_from_ddb`; None when it raises, which it does only without a table name. */
  function DiscoverQueueUrl(bucket: string, runtime: Option<string>, env: BackfillEnv): (url: Option<string>)
    ensures url.None? <==> !Truthy(env.tableName)
  {
    if !Truthy(env.tableName) then None
    else
      var fallback := QueueUrl(env, FallbackQueueName(bucket, runtime));
      if env.table.None? then Some(fallback)
      else
        var names := ScannedAsWritten(env.table.value, ScanQuery(Stack(env), bucket));
        if names == [] then Some(fallback)
        else Some(QueueUrl(env, QueueName(bucket, FindBestMatchingPrefix(runtime, PrefixesOf(names)))))
  }

  /** A runtime prefix that a rule of the bucket was deployed with is sent to that rule's queue. */
  lemma DiscoverFindsDeployedPrefix(bucket: string, p: string, env: BackfillEnv)
    requires Truthy(env.tableName) && env.table.Some?
    requires '/' !in Stack(env) && '/' !in bucket && '/' !in p && p != ""
    requires ParamName(Stack(env), bucket, p) in env.table.value
    ensures DiscoverQueueUrl(bucket, Some(p), env) == Some(QueueUrl(env, QueueName(bucket, p)))
  {
    var name := ParamName(Stack(env), bucket, p);
    var query := ScanQuery(Stack(env), bucket);
    ScannedNamesBelongToBucket(Stack(env), bucket, p, bucket);
    UnderQueryBeginsWith(name, query);
    var names := ScannedAsWritten(env.table.value, query);
    assert name in names;
    SeededNameParses(Stack(env), bucket, p);
    PrefixesOfMembership(names, name);
  }

  /**
   * The neighbour bucket's catch-all entry redirects discovery: for bucket 'data' and the
   * runtime prefix 'logs', a table holding only '/s/data-archive' sends to 'source-data'
   * instead of the fallback 'source-data-logs'.
   */
  lemma NeighbourEntryRedirectsDiscovery(env: BackfillEnv)
    requires Truthy(env.tableName) && env.stackName == Some("s") && env.table == Some(["/s/data-archive"])
    ensures DiscoverQueueUrl("data", Some("logs"), env) == Some(QueueUrl(env, QueueName("data", "")))
    ensures FallbackQueueName("data", Some("logs")) != QueueName("data", "")
  {
    var table := ["/s/data-archive"];
    assert ScanQuery(Stack(env), "data") == ScanQuery("s", "data");
    assert PrefixesOf(ScannedAsWritten(table, ScanQuery("s", "data"))) == [""] by {
      ScanTakesNeighbourBucket();
    }
    assert FindBestMatchingPrefix(Some("logs"), [""]) == "" by {
      assert "logs" !in [""];
      assert FirstParent("logs", [""]).None?;
    }
    var fallback := FallbackQueueName("data", Some("logs"));
    assert fallback == "source-" + "data" + "-" + SanitizedPrefix("logs");
    assert |fallback| > |QueueName("data", "")|;
  }

  /** The method form: the scanned names' prefixes read by the loop. */
  method DiscoverSqsQueueUrl(bucket: string, runtime: Option<string>, env: BackfillEnv) returns (url: Option<string>)
    ensures url == DiscoverQueueUrl(bucket, runtime, env)
  {
    if !Truthy(env.tableName) {
      return None;
    }
    var fallback := QueueUrl(env, FallbackQueueName(bucket, runtime));
    if env.table.None? {
      return Some(fallback);
    }
    var names := ScannedAsWritten(env.table.value, ScanQuery(Stack(env), bucket));
    if names == [] {
      return Some(fallback);
    }
    var configured := ConfiguredPrefixes(names);
    var matched := FindBestMatchingPrefix(runtime, configured);
    url := Some(QueueUrl(env, QueueName(bucket, matched)));
  }

  /**
   * `get_configured_prefixes_from_ddb`; None when it raises (no table name, or the scan raised),
   * otherwise the prefixes read from every name the begins_with scan returns.
   */
  function ConfiguredPrefixesOf(bucket: string, env: BackfillEnv): (ps: Option<seq<string>>)
    ensures ps.None? <==> !Truthy(env.tableName) || env.table.None?
    ensures ps.Some? ==>
              forall n | n in env.table.value && StartsWith(n, ScanQuery(Stack(env), bucket)) && PrefixOfName(n).Some? ::
                PrefixOfName(n).value in ps.value
  {
    if !Truthy(env.tableName) || env.table.None? then None
    else
      var names := ScannedAsWritten(env.table.value, ScanQuery(Stack(env), bucket));
      PrefixesOfAll(names);
      Some(PrefixesOf(names))
  }

  /** Every name with a readable prefix contributes that prefix. */
  lemma PrefixesOfAll(names: seq<string>)
    ensures forall n :: n in names && PrefixOfName(n).Some? ==> PrefixOfName(n).value in PrefixesOf(names)
  {
    forall n | n in names && PrefixOfName(n).Some?
      ensures PrefixOfName(n).value in PrefixesOf(names)
    {
      PrefixesOfMembership(names, n);
    }
  }

  /* ---------------------------------------------------------------------------------- */
  /* send_to_multiple_sqs_queues                                                        */
  /* ---------------------------------------------------------------------------------- */

  /** The entries in first-occurrence order. */
  function Dedup(s: seq<string>): (r: seq<string>)
    ensures forall x :: x in r <==> x in s
    ensures forall i, j :: 0 <= i < j < |r| ==> r[i] != r[j]
  {
    if |s| == 0 then []
    else
      var init := s[..|s| - 1];
      assert s == init + [s[|s| - 1]];
      Dedup(init) + (if s[|s| - 1] in init then [] else [s[|s| - 1]])
  }

  /** The order the grouping's dictionary iterates in: configured prefixes as first listed, then UNMATCHED. */
  function GroupOrder(configured: seq<string>): (order: seq<string>)
    ensures forall g :: g in order <==> g in GroupKeys(configured)
    ensures forall i, j :: 0 <= i < j < |order| ==> order[i] != order[j]
  {
    Dedup(configured) + (if Unmatched in configured then [] else [Unmatched])
  }

  /** The grouping as a value, as `GroupObjectsByPrefix` builds it. */
  function GroupsOf(objects: seq<Item>, configured: seq<string>): map<string, seq<Item>> {
    map g | g in GroupKeys(configured) :: Members(objects, g, configured)
  }

  lemma GroupsOfAt(objects: seq<Item>, configured: seq<string>, g: string)
    requires g in GroupKeys(configured)
    ensures g in GroupsOf(objects, configured) && GroupsOf(objects, configured)[g] == Members(objects, g, configured)
  {
  }

  /** What the multi-queue send reports, and the (queue URL, objects) hand-offs it made, in order. */
  datatype Distribution = Distribution(total: nat, perQueue: map<string, nat>, sends: seq<(string, seq<Item>)>)

  /** The loop over the groups: empty groups are skipped, each other group goes to its prefix's queue. */
  function Distribute(order: seq<string>, groups: map<string, seq<Item>>, bucket: string, env: BackfillEnv): Distribution {
    if |order| == 0 then Distribution(0, map[], [])
    else
      var d := Distribute(order[..|order| - 1], groups, bucket, env);
      var p := order[|order| - 1];
      if p !in groups || groups[p] == [] then d
      else
        var url := QueueUrl(env, QueueName(bucket, p));
        var n := SentOf(Chunks(groups[p]), bucket, url, env.respond);
        Distribution(d.total + n, d.perQueue[url := n], d.sends + [(url, groups[p])])
  }

  /** The hand-off of group `p`: its objects, to the queue of its prefix. */
  function HandOff(groups: map<string, seq<Item>>, p: string, bucket: string, env: BackfillEnv): (string, seq<Item>)
    requires p in groups
  {
    (QueueUrl(env, QueueName(bucket, p)), groups[p])
  }

  predicate Sent(groups: map<string, seq<Item>>, p: string) {
    p in groups && groups[p] != []
  }

  /** Every non-empty listed group is handed off to its prefix's queue. */
  lemma {:induction false} DistributeCovers(order: seq<string>, groups: map<string, seq<Item>>, bucket: string, env: BackfillEnv)
    ensures forall p :: p in order && Sent(groups, p) ==> HandOff(groups, p, bucket, env) in Distribute(order, groups, bucket, env).sends
  {
    if |order| > 0 {
      var init, last := order[..|order| - 1], order[|order| - 1];
      DistributeCovers(init, groups, bucket, env);
      assert order == init + [last];
      var d0, d := Distribute(init, groups, bucket, env), Distribute(order, groups, bucket, env);
      assert forall h :: h in d0.sends ==> h in d.sends;
      forall p | p in order && Sent(groups, p)
        ensures HandOff(groups, p, bucket, env) in d.sends
      {
        if p != last {
          assert p in init;
        }
      }
    }
  }

  /** A hand-off holding object `x` goes to the queue of `x`'s group. */
  lemma {:induction false} DistributeOnlyOwnQueue(order: seq<string>, objects: seq<Item>, configured: seq<string>,
                                                  bucket: string, env: BackfillEnv, x: Item)
    requires forall p :: p in order ==> p in GroupKeys(configured)
    ensures forall h :: h in Distribute(order, GroupsOf(objects, configured), bucket, env).sends && x in h.1 ==>
              h.0 == QueueUrl(env, QueueName(bucket, GroupOf(x.key, configured)))
  {
    if |order| > 0 {
      var init, last := order[..|order| - 1], order[|order| - 1];
      assert order == init + [last];
      DistributeOnlyOwnQueue(init, objects, configured, bucket, env, x);
      GroupsOfAt(objects, configured, last);
      MembersMembership(objects, last, configured, x);
    }
  }

  /**
   * Routing: every object is handed to the queue of its group (the longest configured prefix
   * it falls under, else the catch-all, else the queue named for UNMATCHED), and to no other queue.
   */
  lemma RoutedToGroupQueue(objects: seq<Item>, configured: seq<string>, bucket: string, env: BackfillEnv, x: Item)
    requires x in objects
    ensures var d := Distribute(GroupOrder(configured), GroupsOf(objects, configured), bucket, env);
            var g := GroupOf(x.key, configured);
            var url := QueueUrl(env, QueueName(bucket, g));
            (url, Members(objects, g, configured)) in d.sends && x in Members(objects, g, configured) &&
            forall h :: h in d.sends && x in h.1 ==> h.0 == url
  {
    var order, groups := GroupOrder(configured), GroupsOf(objects, configured);
    var g := GroupOf(x.key, configured);
    DistributeCovers(order, groups, bucket, env);
    DistributeOnlyOwnQueue(order, objects, configured, bucket, env, x);
    GroupsOfAt(objects, configured, g);
    MembersMembership(objects, g, configured, x);
    assert g in order && Sent(groups, g);
  }

  /** The sizes of the listed groups, added up. */
  function GroupSizes(order: seq<string>, groups: map<string, seq<Item>>): nat {
    if |order| == 0 then 0
    else
      var p := order[|order| - 1];
      GroupSizes(order[..|order| - 1], groups) + (if p in groups then |groups[p]| else 0)
  }

  /** With consistent answers, the multi-queue total never exceeds the objects handed off. */
  lemma {:induction false} DistributeBounded(order: seq<string>, groups: map<string, seq<Item>>, bucket: string, env: BackfillEnv)
    requires Consistent(env.respond)
    ensures Distribute(order, groups, bucket, env).total <= GroupSizes(order, groups)
  {
    if |order| > 0 {
      DistributeBounded(order[..|order| - 1], groups, bucket, env);
      var p := order[|order| - 1];
      if p in groups && groups[p] != [] {
        SentAndFailedCoverObjects(groups[p], bucket, QueueUrl(env, QueueName(bucket, p)), env.respond);
      }
    }
  }

  /** The sizes of the listed groups, as computed from the objects. */
  function MemberSizes(order: seq<string>, objects: seq<Item>, configured: seq<string>): nat {
    if |order| == 0 then 0
    else MemberSizes(order[..|order| - 1], objects, configured) + |Members(objects, order[|order| - 1], configured)|
  }

  lemma {:induction false} GroupSizesOfMembers(order: seq<string>, objects: seq<Item>, configured: seq<string>)
    requires forall g :: g in order ==> g in GroupKeys(configured)
    ensures GroupSizes(order, GroupsOf(objects, configured)) == MemberSizes(order, objects, configured)
  {
    if |order| > 0 {
      var init := order[..|order| - 1];
      assert order == init + [order[|order| - 1]];
      GroupSizesOfMembers(init, objects, configured);
      GroupsOfAt(objects, configured, order[|order| - 1]);
    }
  }

  /** After one more object, exactly the group it joins grew by one, if that group is listed once. */
  lemma {:induction false} MemberSizesSnoc(order: seq<string>, objects: seq<Item>, i: nat, configured: seq<string>)
    requires i < |objects|
    requires forall a, b :: 0 <= a < b < |order| ==> order[a] != order[b]
    ensures MemberSizes(order, objects[..i + 1], configured) ==
            MemberSizes(order, objects[..i], configured) + (if GroupOf(objects[i].key, configured) in order then 1 else 0)
  {
    if |order| > 0 {
      var init, last := order[..|order| - 1], order[|order| - 1];
      var g := GroupOf(objects[i].key, configured);
      assert order == init + [last];
      assert forall a, b :: 0 <= a < b < |init| ==> init[a] != init[b] by {
        forall a, b | 0 <= a < b < |init|
          ensures init[a] != init[b]
        {
          assert init[a] == order[a] && init[b] == order[b];
        }
      }
      MemberSizesSnoc(init, objects, i, configured);
      MembersSnoc(objects, i, last, configured);
      assert last !in init by {
        forall a | 0 <= a < |init|
          ensures init[a] != last
        {
          assert order[a] == init[a];
        }
      }
      assert (g in order) <==> (g in init || g == last);
    }
  }

  /** The groups of a duplicate-free order covering every group hold each object exactly once. */
  lemma {:induction false} GroupSizesCount(order: seq<string>, objects: seq<Item>, configured: seq<string>)
    requires forall a, b :: 0 <= a < b < |order| ==> order[a] != order[b]
    requires forall g :: g in order <==> g in GroupKeys(configured)
    ensures GroupSizes(order, GroupsOf(objects, configured)) == |objects|
  {
    GroupSizesOfMembers(order, objects, configured);
    MemberSizesCount(order, objects, configured);
  }

  lemma {:induction false} MemberSizesCount(order: seq<string>, objects: seq<Item>, configured: seq<string>)
    requires forall a, b :: 0 <= a < b < |order| ==> order[a] != order[b]
    requires forall g :: g in order <==> g in GroupKeys(configured)
    ensures MemberSizes(order, objects, configured) == |objects|
    decreases |objects|
  {
    if |objects| == 0 {
      MemberSizesEmpty(order, configured);
    } else {
      var i := |objects| - 1;
      MemberSizesCount(order, objects[..i], configured);
      MemberSizesSnoc(order, objects, i, configured);
      assert objects[..i + 1] == objects;
    }
  }

  lemma {:induction false} MemberSizesEmpty(order: seq<string>, configured: seq<string>)
    ensures MemberSizes(order, [], configured) == 0
  {
    if |order| > 0 {
      MemberSizesEmpty(order[..|order| - 1], configured);
    }
  }

  /** `send_to_multiple_sqs_queues`; None when it raises. */
  function SendToQueues(objects: seq<Item>, bucket: string, runtime: Option<string>, env: BackfillEnv): Option<Distribution> {
    if Truthy(runtime) then
      match DiscoverQueueUrl(bucket, runtime, env)
      case None => None
      case Some(url) =>
        var n := SentOf(Chunks(objects), bucket, url, env.respond);
        Some(Distribution(n, map[url := n], [(url, objects)]))
    else
      match ConfiguredPrefixesOf(bucket, env)
      case None => None
      case Some(configured) =>
        if configured == [] then None
        else Some(Distribute(GroupOrder(configured), GroupsOf(objects, configured), bucket, env))
  }

  /** Every message the send reports was one of the objects: the total never exceeds them. */
  lemma SendToQueuesBounded(objects: seq<Item>, bucket: string, runtime: Option<string>, env: BackfillEnv)
    requires Consistent(env.respond)
    ensures var r := SendToQueues(objects, bucket, runtime, env);
            r.Some? ==> r.value.total <= |objects|
  {
    if Truthy(runtime) {
      if DiscoverQueueUrl(bucket, runtime, env).Some? {
        SentAndFailedCoverObjects(objects, bucket, DiscoverQueueUrl(bucket, runtime, env).value, env.respond);
      }
    } else if ConfiguredPrefixesOf(bucket, env).Some? && ConfiguredPrefixesOf(bucket, env).value != [] {
      var configured := ConfiguredPrefixesOf(bucket, env).value;
      DistributeBounded(GroupOrder(configured), GroupsOf(objects, configured), bucket, env);
      GroupSizesCount(GroupOrder(configured), objects, configured);
    }
  }

  /** The loop over the groups in dictionary order, one batch send per non-empty group. */
  method DistributeGroups(order: seq<string>, groups: map<string, seq<Item>>, bucket: string, env: BackfillEnv)
    returns (d: Distribution)
    requires forall p :: p in order ==> p in groups
    ensures d == Distribute(order, groups, bucket, env)
  {
    d := Distribution(0, map[], []);
    var i := 0;
    while i < |order|
      invariant 0 <= i <= |order|
      invariant d == Distribute(order[..i], groups, bucket, env)
    {
      assert order[..i + 1][..i] == order[..i];
      var p := order[i];
      if groups[p] != [] {
        var url := QueueUrl(env, QueueName(bucket, p));
        var sent, _ := SendToSqsBatch(groups[p], bucket, url, env.respond);
        d := Distribution(d.total + sent, d.perQueue[url := sent], d.sends + [(url, groups[p])]);
      }
      i := i + 1;
    }
    assert order[..i] == order;
  }

  /** The method form: single-queue mode, or grouping and then one batch send per non-empty group. */
  method SendToMultipleSqsQueues(objects: seq<Item>, bucket: string, runtime: Option<string>, env: BackfillEnv)
    returns (r: Option<Distribution>)
    ensures r == SendToQueues(objects, bucket, runtime, env)
  {
    if Truthy(runtime) {
      var url := DiscoverSqsQueueUrl(bucket, runtime, env);
      if url.None? {
        return None;
      }
      var sent, _ := SendToSqsBatch(objects, bucket, url.value, env.respond);
      return Some(Distribution(sent, map[url.value := sent], [(url.value, objects)]));
    }
    var configured := ConfiguredPrefixesOf(bucket, env);
    if configured.None? || configured.value == [] {
      return None;
    }
    var groups := GroupObjectsByPrefix(objects, configured.value);
    forall g | g in groups
      ensures groups[g] == GroupsOf(objects, configured.value)[g]
    {
      GroupsOfAt(objects, configured.value, g);
    }
    assert groups == GroupsOf(objects, configured.value);
    var d := DistributeGroups(GroupOrder(configured.value), groups, bucket, env);
    r := Some(d);
  }

  /* ---------------------------------------------------------------------------------- */
  /* lambda_handler                                                                     */
  /* ---------------------------------------------------------------------------------- */

  /** The execution block of the input; a missing 'bucket' is None. */
  datatype Execution = Execution(bucket: Option<string>, filters: Filters)

  /** The handler's input: 'BatchInput.execution' and 'Items', each possibly missing. */
  datatype BackfillInput = BackfillInput(execution: Option<Execution>, items: Option<seq<Item>>)

  /** The handler's reply: 400, 500, or 200 with the counts (and the per-queue totals when something was sent). */
  datatype Reply =
    | InvalidInput
    | Failure
    | NoMatches(total: nat)
    | Processed(total: nat, filtered: nat, messagesSent: nat, distribution: map<string, nat>)

  function StatusCode(r: Reply): int {
    match r
    case InvalidInput => 400
    case Failure => 500
    case _ => 200
  }

  /** `lambda_handler`: read the input, filter, then distribute the survivors. */
  function HandlerReply(input: BackfillInput, env: BackfillEnv): (r: Reply)
    ensures StatusCode(r) == 400 <==> input.execution.None? || input.items.None? || input.execution.value.bucket.None?
    ensures r.NoMatches? ==> input.items.Some? && r.total == |input.items.value|
  {
    if input.execution.None? || input.items.None? || input.execution.value.bucket.None? then InvalidInput
    else
      var items := input.items.value;
      var ex := input.execution.value;
      var kept := Filtered(items, ex.filters);
      if kept == [] then NoMatches(|items|)
      else
        match SendToQueues(kept, ex.bucket.value, ex.filters.prefix, env)
        case None => Failure
        case Some(d) => Processed(|items|, |kept|, d.total, d.perQueue)
  }

  /** A 200 with messages reports no more sent than filtered, and no more filtered than listed. */
  lemma HandlerCountsBounded(input: BackfillInput, env: BackfillEnv)
    requires Consistent(env.respond)
    ensures var r := HandlerReply(input, env);
            r.Processed? ==> 0 < r.filtered <= r.total && r.messagesSent <= r.filtered
  {
    if input.execution.Some? && input.items.Some? && input.execution.value.bucket.Some? {
      var ex := input.execution.value;
      var kept := Filtered(input.items.value, ex.filters);
      SendToQueuesBounded(kept, ex.bucket.value, ex.filters.prefix, env);
    }
  }

  /** The method form of the handler. */
  method LambdaHandler(input: BackfillInput, env: BackfillEnv) returns (r: Reply)
    ensures r == HandlerReply(input, env)
  {
    if input.execution.None? || input.items.None? || input.execution.value.bucket.None? {
      return InvalidInput;
    }
    var items := input.items.value;
    var ex := input.execution.value;
    var kept, _ := FilterObjects(items, ex.filters);
    if kept == [] {
      return NoMatches(|items|);
    }
    var sent := SendToMultipleSqsQueues(kept, ex.bucket.value, ex.filters.prefix, env);
    if sent.None? {
      return Failure;
    }
    r := Processed(|items|, |kept|, sent.value.total, sent.value.perQueue);
  }
}

/** Structural parsing under a run budget: chunks of files go to an adapter that may refuse anything, and a
    refused chunk is bisected down to single files while retries last. */
module Bisection {
  import opened Keyset
  import opened Orders

  const MAX_INPUT_FILES: nat := 64
  const MAX_BISECTION_RUNS: nat := 64

  datatype File = File(path: string, length: nat)

  /** What an adapter made of a file, or the stand-in for one it could not parse. */
  datatype ParsedFile = Parsed(path: string, budgetExceeded: bool, content: string) | Degraded(path: string)

  datatype Reply = Module(files: seq<ParsedFile>) | Refused | Environmental

  /** Any adapter: its reply may depend on the request and on how often it ran before. */
  type Adapter = (seq<File>, nat) -> Reply

  function Paths(files: seq<File>): seq<string> {
    seq(|files|, i requires 0 <= i < |files| => files[i].path)
  }

  function OutList(out: seq<ParsedFile>): seq<string> {
    seq(|out|, i requires 0 <= i < |out| => out[i].path)
  }

  function OutPaths(out: seq<ParsedFile>): multiset<string> {
    multiset(OutList(out))
  }

  predicate DistinctPaths(files: seq<File>) {
    forall i, j :: 0 <= i < j < |files| ==> files[i].path != files[j].path
  }

  /** A reply holds one parsed file per requested file. */
  ghost predicate Covers(adapter: Adapter) {
    forall request, run :: adapter(request, run).Module? ==> CoversRequest(adapter(request, run).files, request)
  }

  ghost predicate CoversRequest(files: seq<ParsedFile>, request: seq<File>) {
    && OutPaths(files) == multiset(Paths(request))
    && forall i :: 0 <= i < |files| ==> files[i].Parsed?
  }

  lemma OutPathsAppend(a: seq<ParsedFile>, b: seq<ParsedFile>)
    ensures OutPaths(a + b) == OutPaths(a) + OutPaths(b)
  {
    assert OutList(a + b) == OutList(a) + OutList(b);
  }

  lemma OnePath(x: ParsedFile)
    ensures OutPaths([x]) == multiset{x.path}
  {
    assert OutList([x]) == [x.path];
  }

  lemma PathsSplit(files: seq<File>, m: nat)
    requires m <= |files|
    ensures multiset(Paths(files)) == multiset(Paths(files[..m])) + multiset(Paths(files[m..]))
    ensures DistinctPaths(files) ==> DistinctPaths(files[..m]) && DistinctPaths(files[m..])
  {
    assert Paths(files) == Paths(files[..m]) + Paths(files[m..]);
  }

  // ---- isolation -------------------------------------------------------------------------------

  /** Exactly the bad files make requests fail. */
  ghost predicate FailsOn(adapter: Adapter, bad: set<string>) {
    forall request, run :: adapter(request, run) == Refused <==> HasBad(request, bad)
  }

  predicate HasBad(request: seq<File>, bad: set<string>) {
    exists i :: 0 <= i < |request| && request[i].path in bad
  }

  function BadCount(files: seq<File>, bad: set<string>): nat {
    if files == [] then 0 else BadCount(files[..|files| - 1], bad) + (if files[|files| - 1].path in bad then 1 else 0)
  }

  lemma {:induction false} BadCountSplit(files: seq<File>, m: nat, bad: set<string>)
    requires m <= |files|
    ensures BadCount(files, bad) == BadCount(files[..m], bad) + BadCount(files[m..], bad)
  {
    if m == |files| {
      assert files[..m] == files && files[m..] == [];
    } else {
      var n := |files| - 1;
      BadCountSplit(files[..n], m, bad);
      assert files[..n][..m] == files[..m] && files[..n][m..] == files[m..][..n - m];
    }
  }

  lemma {:induction false} BadCountZero(files: seq<File>, bad: set<string>)
    ensures BadCount(files, bad) == 0 <==> !HasBad(files, bad)
  {
    if files != [] {
      var n := |files| - 1;
      BadCountZero(files[..n], bad);
      if HasBad(files[..n], bad) {
        var i :| 0 <= i < n && files[..n][i].path in bad;
        assert files[i].path in bad;
      }
      if HasBad(files, bad) && files[n].path !in bad {
        var i :| 0 <= i < |files| && files[i].path in bad;
        assert files[..n][i].path in bad;
      }
    }
  }

  /** Rounds of halving until one file is left. */
  function CeilLog2(n: nat): nat {
    if n <= 1 then 0 else 1 + CeilLog2((n + 1) / 2)
  }

  function Pow2(k: nat): nat {
    if k == 0 then 1 else 2 * Pow2(k - 1)
  }

  lemma {:induction false} CeilLog2Bounds(n: nat)
    ensures n <= Pow2(CeilLog2(n))
    ensures n > 1 ==> Pow2(CeilLog2(n) - 1) < n
  {
    if n > 1 {
      var half := (n + 1) / 2;
      assert 1 <= half < n <= 2 * half <= n + 1;
      CeilLog2Bounds(half);
      var rounds := CeilLog2(half);
      assert CeilLog2(n) == 1 + rounds;
      if half > 1 { assert Pow2(rounds) == 2 * Pow2(rounds - 1); }
    }
  }

  lemma {:induction false} CeilLog2Monotone(m: nat, n: nat)
    requires m <= n
    ensures CeilLog2(m) <= CeilLog2(n)
  {
    if m > 1 { CeilLog2Monotone((m + 1) / 2, (n + 1) / 2); }
  }

  /** Extra runs that are always enough to isolate `k` bad files among `n`. */
  function Needed(k: nat, n: nat): nat {
    2 * k * CeilLog2(n)
  }

  /** Splitting a failing group pays for both halves. */
  lemma NeededSplits(k: nat, k1: nat, k2: nat, n: nat)
    requires k == k1 + k2 && k >= 1 && n > 1
    ensures 2 + Needed(k1, n / 2) + Needed(k2, n - n / 2) <= Needed(k, n)
  {
    hide CeilLog2;
    var r := CeilLog2(n) - 1;
    assert n - n / 2 == (n + 1) / 2;
    HalfRounds(n);
    Times(2 * k1, CeilLog2(n / 2), r);
    Shares(k1, k2, r);
  }

  lemma HalfRounds(n: nat)
    requires n > 1
    ensures CeilLog2(n) == 1 + CeilLog2((n + 1) / 2) && CeilLog2(n / 2) <= CeilLog2((n + 1) / 2)
  {
    CeilLog2Monotone(n / 2, (n + 1) / 2);
  }

  lemma Shares(k1: nat, k2: nat, r: nat)
    ensures 2 * (k1 + k2) * (r + 1) == 2 * k1 * r + 2 * k2 * r + 2 * (k1 + k2)
  {}

  lemma Times(a: nat, b: nat, c: nat)
    requires b <= c
    ensures a * b <= a * c
  {}

  /** Extra runs that are always enough for several requests. */
  function NeededBy(requests: seq<seq<File>>, bad: set<string>): nat {
    if requests == [] then 0
    else
      var n := |requests| - 1;
      NeededBy(requests[..n], bad) + Needed(BadCount(requests[n], bad), |requests[n]|)
  }

  lemma {:induction false} NeededByPrefix(requests: seq<seq<File>>, i: nat, bad: set<string>)
    requires i < |requests|
    ensures NeededBy(requests[..i + 1], bad)
         == NeededBy(requests[..i], bad) + Needed(BadCount(requests[i], bad), |requests[i]|)
    ensures NeededBy(requests[..i + 1], bad) <= NeededBy(requests, bad)
    decreases |requests|
  {
    hide Needed, BadCount;
    assert requests[..i + 1][..i] == requests[..i];
    var n := |requests| - 1;
    if i < n {
      assert requests[..n][..i + 1] == requests[..i + 1];
      NeededByPrefix(requests[..n], i, bad);
    } else {
      assert requests[..i + 1] == requests;
    }
  }

  /** Exactly the bad files were degraded. */
  ghost predicate Isolated(bad: set<string>, added: seq<ParsedFile>) {
    forall i :: 0 <= i < |added| ==> (added[i].Degraded? <==> added[i].path in bad)
  }

  lemma CoveredPath(files: seq<ParsedFile>, request: seq<File>, i: nat) returns (k: nat)
    requires CoversRequest(files, request) && i < |files|
    ensures k < |request| && request[k].path == files[i].path && files[i].Parsed?
  {
    assert OutList(files)[i] in OutPaths(files);
    assert files[i].path in Paths(request);
    k :| 0 <= k < |request| && Paths(request)[k] == files[i].path;
  }

  lemma IsolatedAppend(bad: set<string>, a: seq<ParsedFile>, b: seq<ParsedFile>)
    requires Isolated(bad, a) && Isolated(bad, b)
    ensures Isolated(bad, a + b)
  {}

  /** A reply to a request without bad files isolates nothing, and there is one. */
  lemma GoodReply(files: seq<ParsedFile>, request: seq<File>, bad: set<string>)
    requires CoversRequest(files, request) && !HasBad(request, bad)
    ensures Isolated(bad, files)
  {
    forall i | 0 <= i < |files| ensures files[i].path !in bad {
      var k := CoveredPath(files, request, i);
    }
  }

  lemma DegradedPaths(files: seq<File>)
    ensures OutPaths(DegradeAll(files)) == multiset(Paths(files))
  {
    assert OutList(DegradeAll(files)) == Paths(files);
  }

  function DegradeAll(files: seq<File>): seq<ParsedFile> {
    seq(|files|, i requires 0 <= i < |files| => Degraded(files[i].path))
  }

  lemma NeededForOne(k: nat, n: nat)
    requires k >= 1 && n >= 2
    ensures Needed(k, n) >= 2
  {
    assert CeilLog2(n) >= 1;
    Times(2 * k, 1, CeilLog2(n));
  }

  lemma NeededForNone(n: nat)
    ensures Needed(0, n) == 0
  {}

  // ---- what the adapter was asked and what became of it ----------------------------------------

  /** One adapter run. */
  datatype Call = Call(request: seq<File>, reply: Reply)

  /** A parsed file that a run's reply settles: whole, or cut short although it was alone. */
  predicate Settles(call: Call, x: ParsedFile) {
    call.reply.Module? && x in call.reply.files && x.Parsed? && (x.budgetExceeded ==> |call.request| == 1)
  }

  predicate Refuses(call: Call, p: string) {
    call.reply == Refused && exists i :: 0 <= i < |call.request| && call.request[i].path == p
  }

  predicate RefusesAlone(call: Call, p: string) {
    call.reply == Refused && |call.request| == 1 && call.request[0].path == p
  }

  /** Where each file of the output comes from: exactly as a run replied, or refused by one. */
  ghost predicate Sourced(added: seq<ParsedFile>, calls: seq<Call>) {
    forall x :: x in added ==>
      if x.Parsed? then exists k :: 0 <= k < |calls| && Settles(calls[k], x)
      else exists k :: 0 <= k < |calls| && Refuses(calls[k], x.path)
  }

  /** What becomes of each run: it was answered, every file it settled is in the output, and one it refused
      alone is degraded. */
  ghost predicate Kept(added: seq<ParsedFile>, calls: seq<Call>) {
    && (forall k :: 0 <= k < |calls| ==> calls[k].reply != Environmental)
    && (forall k, x :: 0 <= k < |calls| && Settles(calls[k], x) ==> x in added)
    && (forall k, p :: 0 <= k < |calls| && RefusesAlone(calls[k], p) ==> Degraded(p) in added)
  }

  ghost predicate Told(added: seq<ParsedFile>, calls: seq<Call>) {
    Sourced(added, calls) && Kept(added, calls)
  }

  /** The runs from a given one on asked the adapter for some of these files. */
  ghost predicate Asked(adapter: Adapter, files: seq<File>, calls: seq<Call>, from: nat) {
    forall k :: from <= k < |calls| ==>
      && calls[k].request != [] && (forall f :: f in calls[k].request ==> f in files)
      && calls[k].reply == adapter(calls[k].request, k)
  }

  /** The last run met an environmental failure. */
  predicate Abandoned(calls: seq<Call>) {
    calls != [] && calls[|calls| - 1].reply == Environmental
  }

  lemma ToldAppend(a: seq<ParsedFile>, b: seq<ParsedFile>, c: seq<Call>, d: seq<Call>)
    requires Told(a, c) && Told(b, d)
    ensures Told(a + b, c + d)
  {
    hide Sourced, Kept;
    SourcedAppend(a, b, c, d);
    KeptAppend(a, b, c, d);
  }

  lemma SourcedAppend(a: seq<ParsedFile>, b: seq<ParsedFile>, c: seq<Call>, d: seq<Call>)
    requires Sourced(a, c) && Sourced(b, d)
    ensures Sourced(a + b, c + d)
  {
    hide Settles, Refuses;
    var calls := c + d;
    forall x | x in a + b
      ensures x.Parsed? ==> exists k :: 0 <= k < |calls| && Settles(calls[k], x)
      ensures x.Degraded? ==> exists k :: 0 <= k < |calls| && Refuses(calls[k], x.path)
    {
      if x in a {
        if x.Parsed? {
          var k :| 0 <= k < |c| && Settles(c[k], x);
          assert calls[k] == c[k];
        } else {
          var k :| 0 <= k < |c| && Refuses(c[k], x.path);
          assert calls[k] == c[k];
        }
      } else {
        if x.Parsed? {
          var k :| 0 <= k < |d| && Settles(d[k], x);
          assert calls[|c| + k] == d[k];
        } else {
          var k :| 0 <= k < |d| && Refuses(d[k], x.path);
          assert calls[|c| + k] == d[k];
        }
      }
    }
  }

  lemma AskedMore(adapter: Adapter, files: seq<File>, part: seq<File>, calls: seq<Call>, calls': seq<Call>, from: nat)
    requires Asked(adapter, files, calls, from) && from <= |calls| && calls <= calls'
    requires Asked(adapter, part, calls', |calls|) && forall f :: f in part ==> f in files
    ensures Asked(adapter, files, calls', from)
  {
    forall k | from <= k < |calls'|
      ensures calls'[k].request != [] && (forall f :: f in calls'[k].request ==> f in files)
              && calls'[k].reply == adapter(calls'[k].request, k)
    {
      if k < |calls| { assert calls'[k] == calls[k]; }
    }
  }

  /** Telling does not depend on order or repetition. */
  lemma ToldByElements(a: seq<ParsedFile>, b: seq<ParsedFile>, calls: seq<Call>)
    requires Told(a, calls) && forall x :: x in a <==> x in b
    ensures Told(b, calls)
  {
    hide Settles, Refuses, RefusesAlone;
  }

  // ---- the algorithm ---------------------------------------------------------------------------

  class StructuralParse {
    var out: seq<ParsedFile>
    var remaining: nat
    var runs: nat
    ghost var calls: seq<Call>

    ghost predicate Valid()
      reads this
    {
      |calls| == runs
    }

    constructor ()
      ensures Valid() && out == [] && remaining == MAX_BISECTION_RUNS && runs == 0 && calls == []
    {
      out, remaining, runs, calls := [], MAX_BISECTION_RUNS, 0, [];
    }

    /** One adapter run. */
    method Run(adapter: Adapter, files: seq<File>) returns (reply: Reply)
      requires Valid()
      modifies this`runs, this`calls
      ensures Valid() && reply == adapter(files, old(runs)) && runs == old(runs) + 1
      ensures calls == old(calls) + [Call(files, reply)]
    {
      reply := adapter(files, runs);
      runs, calls := runs + 1, calls + [Call(files, reply)];
    }

    /** `_parse_solo`: the single retry of a file the shared request cut short. */
    method ParseSolo(adapter: Adapter, file: File, ghost bad: set<string>) returns (ok: bool)
      requires Valid() && Covers(adapter)
      modifies this`out, this`runs, this`calls
      ensures Valid() && old(out) <= out && old(calls) <= calls && runs == old(runs) + 1
      ensures Asked(adapter, [file], calls, |old(calls)|)
      ensures ok ==> OutPaths(out[|old(out)|..]) == multiset{file.path}
      ensures !ok ==> Abandoned(calls)
      ensures ok ==> Told(out[|old(out)|..], calls[|old(calls)|..])
      ensures ok && FailsOn(adapter, bad) ==> Isolated(bad, out[|old(out)|..])
    {
      hide OutPaths, Told;
      var reply := Run(adapter, [file]);
      assert calls[|old(calls)|..] == [Call([file], reply)];
      assert Paths([file]) == [file.path];
      assert FailsOn(adapter, bad) ==> (reply == Refused <==> HasBad([file], bad));
      assert HasBad([file], bad) <==> file.path in bad by { assert [file][0] == file; }
      match reply {
        case Environmental =>
          return false;
        case Refused =>
          out := out + [Degraded(file.path)];
          assert out[|old(out)|..] == [Degraded(file.path)] == DegradeAll([file]);
          OnePath(Degraded(file.path));
          ToldRefused([file]);
        case Module(files) =>
          out := out + files;
          assert out[|old(out)|..] == files;
          assert CoversRequest(files, [file]);
          ToldAlone(files, [file]);
          if FailsOn(adapter, bad) { GoodReply(files, [file], bad); }
      }
      ok := true;
    }

    /** A parsed group: keep each file, or retry alone the ones the shared budget cut short. */
    method Collect(adapter: Adapter, files: seq<File>, parsed: seq<ParsedFile>, ghost bad: set<string>)
      returns (ok: bool)
      requires Valid() && Covers(adapter) && CoversRequest(parsed, files) && |files| > 1
      modifies this`out, this`runs, this`calls
      ensures Valid() && old(out) <= out && old(calls) <= calls && runs <= old(runs) + |parsed|
      ensures Asked(adapter, files, calls, |old(calls)|)
      ensures ok ==> OutPaths(out[|old(out)|..]) == OutPaths(parsed)
      ensures !ok ==> Abandoned(calls)
      ensures ok ==> Told(out[|old(out)|..], [Call(files, Module(parsed))] + calls[|old(calls)|..])
      ensures ok && FailsOn(adapter, bad) && !HasBad(files, bad) ==> Isolated(bad, out[|old(out)|..])
    {
      hide Covers, FailsOn, HasBad, CoversRequest, Isolated, OutPaths, Told, ToldSoFar, Asked;
      ghost var before, called := out, calls;
      ghost var shared := Call(files, Module(parsed));
      ghost var whole := FailsOn(adapter, bad) && !HasBad(files, bad);
      assert whole ==> Isolated(bad, parsed) by { if whole { GoodReply(parsed, files, bad); } }
      NothingAdded(bad);
      NothingTold(adapter, files, shared, calls);
      assert out[|before|..] == [] && parsed[..0] == [] && calls[|called|..] == [];
      for i := 0 to |parsed|
        invariant Valid() && before <= out && called <= calls && runs <= old(runs) + i
        invariant OutPaths(out[|before|..]) == OutPaths(parsed[..i])
        invariant Asked(adapter, files, calls, |called|)
        invariant ToldSoFar(out[|before|..], shared, parsed[..i], calls[|called|..])
        invariant whole ==> Isolated(bad, out[|before|..])
      {
        ghost var now, sofar := out, calls;
        assert parsed[..i + 1] == parsed[..i] + [parsed[i]];
        OutPathsAppend(parsed[..i], [parsed[i]]);
        OnePath(parsed[i]);
        ghost var k := CoveredPath(parsed, files, i);
        if parsed[i].Parsed? && parsed[i].budgetExceeded {
          assert files[k] in files;
          var file :| file in files && file.path == parsed[i].path;
          var solo := ParseSolo(adapter, file, bad);
          AskedMore(adapter, files, [file], sofar, calls, |called|);
          if !solo {
            return false;
          }
          SoloTold(now[|before|..], shared, parsed[..i], sofar[|called|..], parsed[i], out[|now|..], calls[|sofar|..]);
        } else {
          out := out + [parsed[i]];
          assert out[|now|..] == [parsed[i]];
          KeptTold(now[|before|..], shared, parsed, i, sofar[|called|..]);
          assert whole ==> Isolated(bad, [parsed[i]]) by { if whole { IsolatedAt(bad, parsed, i); } }
        }
        assert calls[|called|..] == sofar[|called|..] + calls[|sofar|..];
        assert out[|before|..] == now[|before|..] + out[|now|..];
        OutPathsAppend(now[|before|..], out[|now|..]);
        if whole { IsolatedAppend(bad, now[|before|..], out[|now|..]); }
      }
      assert parsed[..|parsed|] == parsed;
      AllTold(out[|before|..], shared, calls[|called|..]);
      ok := true;
    }

    /** `_parse_bisecting`. Its own run, two runs per retry spent, and one solo run per file at most; every
        file once in the output, exactly as a run replied or refused by one; and with enough retries, exactly
        the bad files degraded. */
    method ParseBisecting(adapter: Adapter, files: seq<File>, ghost bad: set<string>) returns (ok: bool)
      requires Valid() && Covers(adapter) && files != []
      modifies this
      ensures Valid() && old(out) <= out && old(calls) <= calls && remaining <= old(remaining)
      ensures runs <= old(runs) + 1 + (old(remaining) - remaining) + |files|
      ensures Asked(adapter, files, calls, |old(calls)|)
      ensures ok ==> OutPaths(out[|old(out)|..]) == multiset(Paths(files))
      ensures !ok ==> Abandoned(calls)
      ensures ok ==> Told(out[|old(out)|..], calls[|old(calls)|..])
      ensures ok && FailsOn(adapter, bad) && old(remaining) >= Needed(BadCount(files, bad), |files|) ==>
                && Isolated(bad, out[|old(out)|..])
                && old(remaining) - remaining <= Needed(BadCount(files, bad), |files|)
      decreases |files|
    {
      hide Needed, BadCount, Isolated, FailsOn, HasBad, Covers, CoversRequest, OutPaths, Told, Asked;
      ghost var before, called := out, calls;
      ghost var run := runs;
      var reply := Run(adapter, files);
      ghost var asked := calls;
      AskedOnce(adapter, files, called, reply);
      AdapterFacts(adapter, files, run, bad);
      BadCountZero(files, bad);
      NeededForNone(|files|);
      match reply {
        case Environmental =>
          return false;
        case Module(parsed) =>
          CoveredLength(parsed, files);
          if |files| == 1 {
            out := out + parsed;
            assert out[|before|..] == parsed && calls[|called|..] == [Call(files, reply)];
            ToldAlone(parsed, files);
            if FailsOn(adapter, bad) { GoodReply(parsed, files, bad); }
            return true;
          }
          ok := Collect(adapter, files, parsed, bad);
        case Refused =>
          ok := Retry(adapter, files, bad);
      }
      AskedMore(adapter, files, files, asked, calls, |called|);
      assert calls[|called|..] == [Call(files, reply)] + calls[|asked|..];
    }

    /** A refused group: halve it while retries last, else degrade it whole. */
    method Retry(adapter: Adapter, files: seq<File>, ghost bad: set<string>) returns (ok: bool)
      requires Valid() && Covers(adapter) && files != []
      modifies this
      ensures Valid() && old(out) <= out && old(calls) <= calls && remaining <= old(remaining)
      ensures runs <= old(runs) + (old(remaining) - remaining) + |files|
      ensures Asked(adapter, files, calls, |old(calls)|)
      ensures ok ==> OutPaths(out[|old(out)|..]) == multiset(Paths(files))
      ensures !ok ==> Abandoned(calls)
      ensures ok ==> Told(out[|old(out)|..], [Call(files, Refused)] + calls[|old(calls)|..])
      ensures ok && HasBad(files, bad) && FailsOn(adapter, bad)
              && old(remaining) >= Needed(BadCount(files, bad), |files|) ==>
                && Isolated(bad, out[|old(out)|..])
                && old(remaining) - remaining <= Needed(BadCount(files, bad), |files|)
      decreases |files|, 0
    {
      hide Needed, BadCount, Isolated, FailsOn, HasBad, Covers, OutPaths, Paths, Told, Asked;
      ghost var before, called := out, calls;
      ghost var k, n := BadCount(files, bad), |files|;
      NothingAsked(adapter, files, calls);
      BadCountZero(files, bad);
      if |files| > 1 && remaining >= 2 {
        remaining := remaining - 2;
        var middle := |files| / 2;
        ghost var k1, k2 := BadCount(files[..middle], bad), BadCount(files[middle..], bad);
        BadCountSplit(files, middle, bad);
        PathsSplit(files, middle);
        if k >= 1 { NeededSplits(k, k1, k2, n); }
        ok := ParseBisecting(adapter, files[..middle], bad);
        ghost var halfway, asked := out, calls;
        AskedMore(adapter, files, files[..middle], called, asked, |called|);
        if !ok {
          return;
        }
        ok := ParseBisecting(adapter, files[middle..], bad);
        AskedMore(adapter, files, files[middle..], asked, calls, |called|);
        assert out[|before|..] == halfway[|before|..] + out[|halfway|..];
        assert calls[|called|..] == asked[|called|..] + calls[|asked|..];
        if ok {
          HalvesJoin(files, bad, halfway[|before|..], out[|halfway|..], asked[|called|..], calls[|asked|..]);
        }
        return;
      }
      if |files| > 1 && k >= 1 { NeededForOne(k, n); }
      out := out + seq(|files|, i requires 0 <= i < |files| => Degraded(files[i].path));
      assert out[|before|..] == DegradeAll(files);
      DegradedPaths(files);
      ToldRefused(files);
      assert [Call(files, Refused)] + calls[|called|..] == [Call(files, Refused)];
      if |files| == 1 && HasBad(files, bad) { LoneBadFile(files, bad); }
      ok := true;
    }
  }

  // ---- one call at a time ----------------------------------------------------------------------

  /** A refused group, degraded whole. */
  lemma ToldRefused(files: seq<File>)
    ensures Told(DegradeAll(files), [Call(files, Refused)])
  {
    var added, calls := DegradeAll(files), [Call(files, Refused)];
    forall x | x in added ensures x.Degraded? && Refuses(calls[0], x.path) {
      var i :| 0 <= i < |files| && added[i] == x;
      assert files[i].path == x.path;
    }
    forall k, p | 0 <= k < |calls| && RefusesAlone(calls[k], p) ensures Degraded(p) in added {
      assert added[0] == Degraded(p);
    }
  }

  /** The reply to a file alone, taken as it is. */
  lemma ToldAlone(parsed: seq<ParsedFile>, files: seq<File>)
    requires CoversRequest(parsed, files) && |files| == 1
    ensures Told(parsed, [Call(files, Module(parsed))])
  {
    hide OutPaths;
    var calls := [Call(files, Module(parsed))];
    assert forall x :: x in parsed ==> Settles(calls[0], x);
  }

  lemma AskedOnce(adapter: Adapter, files: seq<File>, calls: seq<Call>, reply: Reply)
    requires files != [] && reply == adapter(files, |calls|)
    ensures Asked(adapter, files, calls + [Call(files, reply)], |calls|)
  {}

  lemma NothingAsked(adapter: Adapter, files: seq<File>, calls: seq<Call>)
    ensures Asked(adapter, files, calls, |calls|)
  {}

  /** A group that was refused and halved adds nothing of its own. */
  lemma SplitTold(files: seq<File>, added: seq<ParsedFile>, calls: seq<Call>)
    requires Told(added, calls) && |files| > 1
    ensures Told(added, [Call(files, Refused)] + calls)
  {
    var split := [Call(files, Refused)];
    assert forall x :: !Settles(split[0], x);
    assert forall p :: !RefusesAlone(split[0], p);
    assert Told([], split);
    ToldAppend([], added, split, calls);
    assert [] + added == added;
  }

  lemma HalvesJoin(files: seq<File>, bad: set<string>, a: seq<ParsedFile>, b: seq<ParsedFile>, c: seq<Call>,
                   d: seq<Call>)
    requires Told(a, c) && Told(b, d) && |files| > 1
    ensures Told(a + b, [Call(files, Refused)] + (c + d)) && OutPaths(a + b) == OutPaths(a) + OutPaths(b)
    ensures Isolated(bad, a) && Isolated(bad, b) ==> Isolated(bad, a + b)
  {
    hide Told, OutPaths, Isolated;
    OutPathsAppend(a, b);
    ToldAppend(a, b, c, d);
    SplitTold(files, a + b, c + d);
    if Isolated(bad, a) && Isolated(bad, b) { IsolatedAppend(bad, a, b); }
  }

  /** The first files of a shared reply are dealt with: kept, or retried by the runs since. */
  ghost predicate ToldSoFar(added: seq<ParsedFile>, shared: Call, done: seq<ParsedFile>, calls: seq<Call>) {
    && Sourced(added, [shared] + calls) && Kept(added, calls)
    && forall x :: x in done && Settles(shared, x) ==> x in added
  }

  lemma NothingTold(adapter: Adapter, files: seq<File>, shared: Call, calls: seq<Call>)
    ensures ToldSoFar([], shared, [], []) && Asked(adapter, files, calls, |calls|)
  {}

  lemma KeptTold(added: seq<ParsedFile>, shared: Call, parsed: seq<ParsedFile>, i: nat, calls: seq<Call>)
    requires i < |parsed| && ToldSoFar(added, shared, parsed[..i], calls)
    requires shared.reply == Module(parsed) && parsed[i].Parsed? && !parsed[i].budgetExceeded
    ensures ToldSoFar(added + [parsed[i]], shared, parsed[..i + 1], calls)
  {
    assert Settles(shared, parsed[i]);
    assert Sourced([parsed[i]], [shared]) by { assert [shared][0] == shared; }
    SourcedAppend(added, [parsed[i]], [shared] + calls, [shared]);
    SourcedBy(added + [parsed[i]], [shared] + calls + [shared], [shared] + calls);
    assert parsed[..i + 1] == parsed[..i] + [parsed[i]];
  }

  /** Only which runs there were matters. */
  lemma SourcedBy(added: seq<ParsedFile>, calls: seq<Call>, calls': seq<Call>)
    requires Sourced(added, calls) && forall call :: call in calls ==> call in calls'
    ensures Sourced(added, calls')
  {
    hide Settles, Refuses;
    forall x | x in added
      ensures x.Parsed? ==> exists k :: 0 <= k < |calls'| && Settles(calls'[k], x)
      ensures x.Degraded? ==> exists k :: 0 <= k < |calls'| && Refuses(calls'[k], x.path)
    {
      if x.Parsed? {
        var k :| 0 <= k < |calls| && Settles(calls[k], x);
        assert calls[k] in calls';
      } else {
        var k :| 0 <= k < |calls| && Refuses(calls[k], x.path);
        assert calls[k] in calls';
      }
    }
  }

  lemma SoloTold(added: seq<ParsedFile>, shared: Call, done: seq<ParsedFile>, calls: seq<Call>, x: ParsedFile,
                 solo: seq<ParsedFile>, more: seq<Call>)
    requires ToldSoFar(added, shared, done, calls) && Told(solo, more)
    requires x.Parsed? && x.budgetExceeded && |shared.request| > 1
    ensures ToldSoFar(added + solo, shared, done + [x], calls + more)
  {
    hide Sourced, Kept;
    assert !Settles(shared, x);
    assert Kept(added + solo, calls + more) by { KeptAppend(added, solo, calls, more); }
    SourcedAppend(added, solo, [shared] + calls, more);
    assert [shared] + calls + more == [shared] + (calls + more);
  }

  lemma KeptAppend(a: seq<ParsedFile>, b: seq<ParsedFile>, c: seq<Call>, d: seq<Call>)
    requires Kept(a, c) && Kept(b, d)
    ensures Kept(a + b, c + d)
  {
    hide Settles, RefusesAlone;
    var calls := c + d;
    forall k | 0 <= k < |calls| ensures calls[k].reply != Environmental {
      assert calls[k] == if k < |c| then c[k] else d[k - |c|];
    }
    forall k, x | 0 <= k < |calls| && Settles(calls[k], x) ensures x in a + b {
      assert calls[k] == if k < |c| then c[k] else d[k - |c|];
    }
    forall k, p | 0 <= k < |calls| && RefusesAlone(calls[k], p) ensures Degraded(p) in a + b {
      assert calls[k] == if k < |c| then c[k] else d[k - |c|];
    }
  }

  /** Every file of the shared reply is dealt with. */
  lemma AllTold(added: seq<ParsedFile>, shared: Call, calls: seq<Call>)
    requires shared.reply.Module? && ToldSoFar(added, shared, shared.reply.files, calls)
    ensures Told(added, [shared] + calls)
  {
    hide Sourced;
    var all := [shared] + calls;
    forall k | 0 <= k < |all| ensures all[k].reply != Environmental {
      if k > 0 { assert all[k] == calls[k - 1]; }
    }
    forall k, x | 0 <= k < |all| && Settles(all[k], x) ensures x in added {
      if k > 0 { assert all[k] == calls[k - 1]; }
    }
    forall k, p | 0 <= k < |all| && RefusesAlone(all[k], p) ensures Degraded(p) in added {
      if k > 0 { assert all[k] == calls[k - 1]; }
    }
  }

  lemma NothingAdded(bad: set<string>)
    ensures Isolated(bad, []) && OutPaths([]) == multiset{}
  {}

  lemma IsolatedAt(bad: set<string>, added: seq<ParsedFile>, i: nat)
    requires Isolated(bad, added) && i < |added|
    ensures Isolated(bad, [added[i]])
  {}

  lemma LoneBadFile(files: seq<File>, bad: set<string>)
    requires |files| == 1 && HasBad(files, bad)
    ensures Isolated(bad, DegradeAll(files))
  {}

  lemma AdapterFacts(adapter: Adapter, files: seq<File>, run: nat, bad: set<string>)
    requires Covers(adapter)
    ensures adapter(files, run).Module? ==> CoversRequest(adapter(files, run).files, files)
    ensures FailsOn(adapter, bad) ==> (adapter(files, run) == Refused <==> HasBad(files, bad))
  {}

  lemma CoveredLength(parsed: seq<ParsedFile>, files: seq<File>)
    requires CoversRequest(parsed, files)
    ensures |parsed| == |files| && OutPaths(parsed) == multiset(Paths(files))
  {
    assert |OutPaths(parsed)| == |OutList(parsed)|;
    assert |multiset(Paths(files))| == |Paths(files)|;
  }

  // ---- chunks ----------------------------------------------------------------------------------

  function Size(files: seq<File>): nat {
    if files == [] then 0 else Size(files[..|files| - 1]) + files[|files| - 1].length
  }

  function Flatten(chunks: seq<seq<File>>): seq<File> {
    if chunks == [] then [] else Flatten(chunks[..|chunks| - 1]) + chunks[|chunks| - 1]
  }

  predicate FitsRequest(chunk: seq<File>, budget: nat) {
    chunk != [] && |chunk| <= MAX_INPUT_FILES && (|chunk| == 1 || Size(chunk) <= budget)
  }

  /** No chunk was closed while its successor's first file still fitted. */
  ghost predicate Greedy(chunks: seq<seq<File>>, budget: nat) {
    forall i :: 0 <= i < |chunks| - 1 ==> Tight(chunks[i], chunks[i + 1], budget)
  }

  predicate Tight(a: seq<File>, b: seq<File>, budget: nat) {
    b != [] ==> |a| == MAX_INPUT_FILES || Size(a) + b[0].length > budget
  }

  /** The chunks closed after some files, and the one still open. */
  datatype Chunking = Chunking(closed: seq<seq<File>>, open: seq<File>) {
    function All(): seq<seq<File>> {
      if open == [] then closed else closed + [open]
    }
  }

  predicate Full(chunk: seq<File>, item: File, budget: nat) {
    chunk != [] && (|chunk| >= MAX_INPUT_FILES || Size(chunk) + item.length > budget)
  }

  function Chunked(files: seq<File>, budget: nat): Chunking {
    if files == [] then Chunking([], [])
    else
      var item := files[|files| - 1];
      var before := Chunked(files[..|files| - 1], budget);
      if Full(before.open, item, budget) then Chunking(before.closed + [before.open], [item])
      else Chunking(before.closed, before.open + [item])
  }

  /** The requests a list of files is sent in. */
  function ChunkList(files: seq<File>, budget: nat): seq<seq<File>> {
    Chunked(files, budget).All()
  }

  lemma ChunkedNext(files: seq<File>, item: File, budget: nat)
    ensures var before := Chunked(files, budget);
            Chunked(files + [item], budget)
            == if Full(before.open, item, budget) then Chunking(before.closed + [before.open], [item])
               else Chunking(before.closed, before.open + [item])
  {
    assert (files + [item])[..|files|] == files;
  }

  /** `_chunks`. */
  method Chunks(files: seq<File>, budget: nat) returns (chunks: seq<seq<File>>)
    ensures chunks == ChunkList(files, budget)
  {
    hide Chunked, Size;
    chunks := [];
    var chunk: seq<File> := [];
    var size := 0;
    NothingChunked(budget);
    assert files[..0] == [];
    for i := 0 to |files|
      invariant Chunked(files[..i], budget) == Chunking(chunks, chunk) && size == Size(chunk)
    {
      var item := files[i];
      assert files[..i + 1] == files[..i] + [item];
      ChunkedNext(files[..i], item, budget);
      if chunk != [] && (|chunk| >= MAX_INPUT_FILES || size + item.length > budget) {
        chunks := chunks + [chunk];
        chunk, size := [], 0;
        NothingChunked(budget);
      }
      SizeNext(chunk, item);
      chunk := chunk + [item];
      size := size + item.length;
      assert [] + [item] == [item];
    }
    assert files[..|files|] == files;
    if chunk != [] {
      chunks := chunks + [chunk];
    }
  }

  /** CHUNKS. The files in order, each request within its file and byte limits unless it is one file, and
      none closed early. */
  lemma ChunksAreExact(files: seq<File>, budget: nat)
    ensures Flatten(ChunkList(files, budget)) == files
    ensures forall c :: c in ChunkList(files, budget) ==> FitsRequest(c, budget)
    ensures Greedy(ChunkList(files, budget), budget)
  {
    hide Chunked, ChunkedSoFar, Size, Greedy, FitsRequest;
    var all := Chunked(files, budget);
    ChunkedHolds(files, budget);
    ChunksDone(files, all.closed, all.open, budget);
  }

  lemma {:induction false} ChunkedHolds(files: seq<File>, budget: nat)
    ensures ChunkedSoFar(files, Chunked(files, budget).closed, Chunked(files, budget).open, budget)
  {
    hide ChunkedSoFar, Size;
    NothingChunked(budget);
    if files != [] {
      var n := |files| - 1;
      var item, before := files[n], Chunked(files[..n], budget);
      ChunkedHolds(files[..n], budget);
      assert files == files[..n] + [item];
      if Full(before.open, item, budget) {
        ChunkCloses(files[..n], before.closed, before.open, item, budget);
      } else {
        ChunkTakes(files[..n], before.closed, before.open, item, budget);
      }
    }
  }

  /** No request is empty, so there are no more requests than files. */
  lemma {:induction false} NoMoreChunksThanFiles(chunks: seq<seq<File>>)
    requires forall c :: c in chunks ==> c != []
    ensures |chunks| <= |Flatten(chunks)|
  {
    if chunks != [] {
      var n := |chunks| - 1;
      assert chunks[n] in chunks;
      assert forall c :: c in chunks[..n] ==> c in chunks;
      NoMoreChunksThanFiles(chunks[..n]);
    }
  }

  /** The chunks closed so far and the open one hold the files so far, in order. */
  ghost predicate ChunkedSoFar(files: seq<File>, chunks: seq<seq<File>>, chunk: seq<File>, budget: nat) {
    && Flatten(chunks) + chunk == files
    && (forall c :: c in chunks ==> FitsRequest(c, budget))
    && (chunk == [] ==> chunks == [])
    && (chunk != [] ==> FitsRequest(chunk, budget))
    && Greedy(chunks + [chunk], budget)
  }

  lemma NothingChunked(budget: nat)
    ensures Chunked([], budget) == Chunking([], []) && ChunkedSoFar([], [], [], budget) && Size([]) == 0
  {}

  lemma SizeNext(chunk: seq<File>, item: File)
    ensures Size(chunk + [item]) == Size(chunk) + item.length && Size([]) == 0
  {
    assert (chunk + [item])[..|chunk|] == chunk;
  }

  lemma FlattenNext(chunks: seq<seq<File>>, chunk: seq<File>)
    ensures Flatten(chunks + [chunk]) == Flatten(chunks) + chunk
  {
    assert (chunks + [chunk])[..|chunks|] == chunks;
  }

  lemma ChunkCloses(files: seq<File>, chunks: seq<seq<File>>, chunk: seq<File>, item: File, budget: nat)
    requires ChunkedSoFar(files, chunks, chunk, budget) && chunk != []
    requires |chunk| >= MAX_INPUT_FILES || Size(chunk) + item.length > budget
    ensures ChunkedSoFar(files + [item], chunks + [chunk], [item], budget)
  {
    assert |chunk| <= MAX_INPUT_FILES;
    hide Size, Greedy, FitsRequest;
    FlattenNext(chunks, chunk);
    LoneFits(item, budget);
    GreedyCloses(chunks, chunk, [item], budget);
  }

  lemma LoneFits(item: File, budget: nat)
    ensures FitsRequest([item], budget)
  {}

  lemma GreedyCloses(chunks: seq<seq<File>>, last: seq<File>, next: seq<File>, budget: nat)
    requires Greedy(chunks + [last], budget) && Tight(last, next, budget)
    ensures Greedy(chunks + [last] + [next], budget)
  {
    hide Tight;
    var before, after := chunks + [last], chunks + [last] + [next];
    forall i | 0 <= i < |after| - 1 ensures Tight(after[i], after[i + 1], budget) {
      if i < |chunks| {
        assert after[i] == before[i] && after[i + 1] == before[i + 1];
        assert Tight(before[i], before[i + 1], budget);
      } else {
        assert after[i] == last && after[i + 1] == next;
      }
    }
  }

  lemma ChunkTakes(files: seq<File>, chunks: seq<seq<File>>, chunk: seq<File>, item: File, budget: nat)
    requires ChunkedSoFar(files, chunks, chunk, budget)
    requires chunk == [] || (|chunk| < MAX_INPUT_FILES && Size(chunk) + item.length <= budget)
    ensures ChunkedSoFar(files + [item], chunks, chunk + [item], budget)
  {
    hide Size;
    SizeNext(chunk, item);
    assert Flatten(chunks) + (chunk + [item]) == files + [item];
    GreedyTakes(chunks, chunk, item, budget);
  }

  lemma GreedyTakes(chunks: seq<seq<File>>, chunk: seq<File>, item: File, budget: nat)
    requires Greedy(chunks + [chunk], budget) && (chunk == [] ==> chunks == [])
    ensures Greedy(chunks + [chunk + [item]], budget)
  {
    hide Size;
    var before: seq<seq<File>>, after: seq<seq<File>> := chunks + [chunk], chunks + [chunk + [item]];
    forall i | 0 <= i < |after| - 1 ensures Tight(after[i], after[i + 1], budget) {
      assert Tight(before[i], before[i + 1], budget);
      assert chunk != [] ==> (chunk + [item])[0] == chunk[0];
    }
  }

  lemma ChunksDone(files: seq<File>, chunks: seq<seq<File>>, chunk: seq<File>, budget: nat)
    requires ChunkedSoFar(files, chunks, chunk, budget)
    ensures var all := if chunk == [] then chunks else chunks + [chunk];
            Flatten(all) == files && (forall c :: c in all ==> FitsRequest(c, budget)) && Greedy(all, budget)
  {
    hide Size;
    FlattenNext(chunks, chunk);
  }

  // ---- the whole call --------------------------------------------------------------------------

  const MAX_SOURCE_BYTES: nat := 1_048_576

  /** Sources, the language each path is of, and an adapter and byte budget per language. */
  datatype Request = Request(sources: map<string, nat>, languages: map<string, string>, adapters: map<string, Adapter>,
                             budgets: string -> nat)

  predicate Accepted(q: Request, p: string) {
    p in q.sources && p in q.languages && q.languages[p] in q.adapters && q.sources[p] <= MAX_SOURCE_BYTES
  }

  function AcceptedPaths(q: Request): set<string> {
    set p | p in q.sources && Accepted(q, p)
  }

  function PathsOfLanguage(q: Request, language: string): set<string> {
    set p | p in q.sources && Accepted(q, p) && q.languages[p] == language
  }

  function LanguagesOf(q: Request): set<string> {
    set p | p in q.sources && Accepted(q, p) :: q.languages[p]
  }

  lemma InSources(q: Request, language: string)
    ensures forall p :: p in SortedSet(PathsOfLanguage(q, language)) ==> p in q.sources
  {
    hide SortedSet;
    assert forall p :: p in SortedSet(PathsOfLanguage(q, language)) ==> p in PathsOfLanguage(q, language);
  }

  /** One language's files, in path order. */
  ghost function FilesOf(q: Request, language: string): seq<File> {
    InSources(q, language);
    FilesAt(q, SortedSet(PathsOfLanguage(q, language)))
  }

  /** The requests they are sent in. */
  ghost function Requests(q: Request, language: string): seq<seq<File>> {
    ChunkList(FilesOf(q, language), q.budgets(language))
  }

  /** Extra runs that are always enough for all requests of several languages. */
  ghost function NeededByAll(q: Request, languages: seq<string>, bad: set<string>): nat {
    if languages == [] then 0
    else
      var n := |languages| - 1;
      NeededByAll(q, languages[..n], bad) + NeededBy(Requests(q, languages[n]), bad)
  }

  /** The run budget is enough to isolate the bad files. */
  ghost predicate Affordable(q: Request, bad: set<string>) {
    NeededByAll(q, SortedSet(LanguagesOf(q)), bad) <= MAX_BISECTION_RUNS
  }

  lemma {:induction false} NeededByAllPrefix(q: Request, languages: seq<string>, i: nat, bad: set<string>)
    requires i < |languages|
    ensures NeededByAll(q, languages[..i + 1], bad)
         == NeededByAll(q, languages[..i], bad) + NeededBy(Requests(q, languages[i]), bad)
    ensures NeededByAll(q, languages[..i + 1], bad) <= NeededByAll(q, languages, bad)
    decreases |languages|
  {
    hide NeededBy, Requests;
    assert languages[..i + 1][..i] == languages[..i];
    var n := |languages| - 1;
    if i < n {
      assert languages[..n][..i + 1] == languages[..i + 1];
      NeededByAllPrefix(q, languages[..n], i, bad);
    } else {
      assert languages[..i + 1] == languages;
    }
  }

  /** A run asked the adapter of one language for accepted files of that language, as they are. */
  ghost predicate AskedFor(q: Request, call: Call, run: nat, language: string) {
    && language in q.adapters && call.request != [] && call.reply == q.adapters[language](call.request, run)
    && forall f :: f in call.request ==> OfLanguage(q, f, language)
  }

  predicate OfLanguage(q: Request, f: File, language: string) {
    Accepted(q, f.path) && q.languages[f.path] == language && f.length == q.sources[f.path]
  }

  ghost predicate SomeoneAsked(q: Request, call: Call, run: nat) {
    exists language :: AskedFor(q, call, run, language)
  }

  ghost predicate EveryRunAsked(q: Request, calls: seq<Call>) {
    forall k :: 0 <= k < |calls| ==> SomeoneAsked(q, calls[k], k)
  }

  /** Every adapter refuses exactly the requests that hold a bad file. */
  ghost predicate AllFailOn(q: Request, bad: set<string>) {
    forall language :: language in q.adapters ==> FailsOn(q.adapters[language], bad)
  }

  /** The requests of several languages in all. */
  ghost function RequestCount(q: Request, languages: seq<string>): nat {
    if languages == [] then 0
    else RequestCount(q, languages[..|languages| - 1]) + |Requests(q, languages[|languages| - 1])|
  }

  function FilesAt(q: Request, order: seq<string>): seq<File>
    requires forall p :: p in order ==> p in q.sources
  {
    seq(|order|, i requires 0 <= i < |order| => assert order[i] in order; File(order[i], q.sources[order[i]]))
  }

  lemma {:induction false} DistinctMultiset(order: seq<string>, elements: set<string>)
    requires StrictlySorted(order, Less) && forall p :: p in order <==> p in elements
    ensures multiset(order) == multiset(elements)
  {
    forall i, j | 0 <= i < j < |order| ensures order[i] != order[j] {
      assert Less(order[i], order[j]);
      LessIrreflexive(order[i]);
    }
    MultiplicityOne(order);
    forall p ensures multiset(order)[p] == multiset(elements)[p] {
      assert p in multiset(order) <==> p in order;
    }
  }

  class IndexerParse {
    const parse: StructuralParse
    var batches: nat

    constructor ()
      ensures fresh(parse) && parse.Valid() && parse.out == [] && parse.remaining == MAX_BISECTION_RUNS
              && parse.runs == 0 && batches == 0
    {
      parse := new StructuralParse();
      batches := 0;
    }

    /** The chunks of one language in order. */
    method ParseChunks(adapter: Adapter, chunks: seq<seq<File>>, ghost bad: set<string>) returns (ok: bool)
      requires parse.Valid() && Covers(adapter) && forall c :: c in chunks ==> c != []
      modifies this, parse
      ensures parse.Valid() && old(parse.out) <= parse.out && old(parse.calls) <= parse.calls
      ensures parse.remaining <= old(parse.remaining)
      ensures parse.runs - old(parse.runs)
           <= (batches - old(batches)) + (old(parse.remaining) - parse.remaining) + |Flatten(chunks)|
      ensures batches - old(batches) <= |chunks| && (ok ==> batches - old(batches) == |chunks|)
      ensures Asked(adapter, Flatten(chunks), parse.calls, |old(parse.calls)|)
      ensures ok ==> OutPaths(parse.out[|old(parse.out)|..]) == multiset(Paths(Flatten(chunks)))
      ensures !ok ==> Abandoned(parse.calls)
      ensures ok ==> Told(parse.out[|old(parse.out)|..], parse.calls[|old(parse.calls)|..])
      ensures ok && FailsOn(adapter, bad) && old(parse.remaining) >= NeededBy(chunks, bad) ==>
                && Isolated(bad, parse.out[|old(parse.out)|..])
                && old(parse.remaining) - parse.remaining <= NeededBy(chunks, bad)
    {
      hide Covers, OutPaths, Paths, Told, Asked, Isolated, FailsOn, NeededBy, Needed, BadCount;
      ghost var before, called := parse.out, parse.calls;
      ghost var enough := FailsOn(adapter, bad) && parse.remaining >= NeededBy(chunks, bad);
      ghost var done: seq<File> := [];
      NothingYet();
      NothingAdded(bad);
      NothingAsked(adapter, Flatten(chunks), parse.calls);
      NothingNeeded(bad);
      assert parse.out[|before|..] == [] && parse.calls[|called|..] == [] && chunks[..0] == [];
      for i := 0 to |chunks|
        invariant done == Flatten(chunks[..i]) && before <= parse.out && called <= parse.calls && parse.Valid()
        invariant batches == old(batches) + i && parse.remaining <= old(parse.remaining)
        invariant parse.runs - old(parse.runs) <= i + (old(parse.remaining) - parse.remaining) + |done|
        invariant Asked(adapter, Flatten(chunks), parse.calls, |called|)
        invariant OutPaths(parse.out[|before|..]) == multiset(Paths(done))
        invariant Told(parse.out[|before|..], parse.calls[|called|..])
        invariant enough ==> Isolated(bad, parse.out[|before|..])
        invariant enough ==> old(parse.remaining) - parse.remaining <= NeededBy(chunks[..i], bad)
      {
        ghost var now, sofar := parse.out, parse.calls;
        assert chunks[..i + 1][..i] == chunks[..i] && chunks[i] in chunks;
        FlattenLength(chunks, i);
        NeededByPrefix(chunks, i, bad);
        batches := batches + 1;
        ok := parse.ParseBisecting(adapter, chunks[i], bad);
        InFlatten(chunks, i);
        AskedMore(adapter, Flatten(chunks), chunks[i], sofar, parse.calls, |called|);
        if !ok {
          return;
        }
        assert parse.out[|before|..] == now[|before|..] + parse.out[|now|..];
        assert parse.calls[|called|..] == sofar[|called|..] + parse.calls[|sofar|..];
        OutPathsAppend(now[|before|..], parse.out[|now|..]);
        ToldAppend(now[|before|..], parse.out[|now|..], sofar[|called|..], parse.calls[|sofar|..]);
        if enough { IsolatedAppend(bad, now[|before|..], parse.out[|now|..]); }
        PathsJoin(done, chunks[i]);
        done := done + chunks[i];
      }
      assert chunks[..|chunks|] == chunks;
      ok := true;
    }

    /** One language: its files in path order, chunked and parsed. */
    method ParseLanguage(q: Request, language: string, ghost bad: set<string>) returns (ok: bool)
      requires parse.Valid() && language in q.adapters && Covers(q.adapters[language])
      modifies this, parse
      ensures parse.Valid() && old(parse.out) <= parse.out && old(parse.calls) <= parse.calls
      ensures parse.remaining <= old(parse.remaining)
      ensures parse.runs - old(parse.runs)
           <= (batches - old(batches)) + (old(parse.remaining) - parse.remaining) + |PathsOfLanguage(q, language)|
      ensures batches - old(batches) <= |Requests(q, language)|
      ensures ok ==> batches - old(batches) == |Requests(q, language)|
      ensures Asked(q.adapters[language], FilesOf(q, language), parse.calls, |old(parse.calls)|)
      ensures ok ==> OutPaths(parse.out[|old(parse.out)|..]) == multiset(PathsOfLanguage(q, language))
      ensures !ok ==> Abandoned(parse.calls)
      ensures ok ==> Told(parse.out[|old(parse.out)|..], parse.calls[|old(parse.calls)|..])
      ensures ok && FailsOn(q.adapters[language], bad)
              && old(parse.remaining) >= NeededBy(Requests(q, language), bad) ==>
                && Isolated(bad, parse.out[|old(parse.out)|..])
                && old(parse.remaining) - parse.remaining <= NeededBy(Requests(q, language), bad)
    {
      hide Covers, OutPaths, Paths, SortedSet, FirstOf, PathsOfLanguage, FilesAt, FitsRequest, Greedy;
      hide Flatten, ChunkList, Told, Asked, Isolated, FailsOn, NeededBy;
      var order := Smallest(PathsOfLanguage(q, language), |PathsOfLanguage(q, language)|);
      AllOf(PathsOfLanguage(q, language));
      LanguageFiles(q, language, order);
      var files := FilesAt(q, order);
      var chunks := Chunks(files, q.budgets(language));
      ChunksAreExact(files, q.budgets(language));
      NonEmpty(chunks, q.budgets(language));
      ok := ParseChunks(q.adapters[language], chunks, bad);
    }

    /** `parse_structural`. Unless the environment fails a run, and then that was the last one, every accepted
        file appears exactly once in the output, in path order: exactly as some run replied, or degraded because
        a run that held it was refused; and nothing a run settled is missing. The adapter runs, refusals
        included, are at most one per request the files are chunked into, plus the retry budget, plus one per
        file. No request is empty, so that is at most two per file plus the budget. And when the adapters fail
        on bad files only and the budget is enough, exactly the bad files are degraded. */
    method ParseAll(q: Request, ghost bad: set<string>) returns (r: Option<seq<ParsedFile>>)
      requires forall language :: language in q.adapters ==> Covers(q.adapters[language])
      requires parse.Valid() && parse.out == [] && parse.remaining == MAX_BISECTION_RUNS && parse.runs == 0
      requires batches == 0
      modifies this, parse
      ensures parse.Valid() && EveryRunAsked(q, parse.calls)
      ensures parse.runs <= RequestCount(q, SortedSet(LanguagesOf(q))) + MAX_BISECTION_RUNS + |AcceptedPaths(q)|
      ensures parse.runs <= 2 * |AcceptedPaths(q)| + MAX_BISECTION_RUNS
      ensures r.Some? ==> OutList(r.value) == SortedSet(AcceptedPaths(q))
      ensures r.None? ==> Abandoned(parse.calls)
      ensures r.Some? ==> Told(r.value, parse.calls)
      ensures r.Some? && AllFailOn(q, bad) && Affordable(q, bad) ==> Isolated(bad, r.value)
      ensures r.Some? ==> batches == RequestCount(q, SortedSet(LanguagesOf(q)))
    {
      hide Covers, OutPaths, Paths, SortedSet, PathsOfLanguage, PathsOfLanguages, FilesAt, LanguagesOf, AcceptedPaths;
      hide Less, Accepted, Requests, RequestCount, Told, Asked, Isolated, FailsOn, NeededByAll, NeededBy, AskedFor;
      hide EveryRunAsked, FilesOf;
      var order := Smallest(LanguagesOf(q), |LanguagesOf(q)|);
      AllOf(LanguagesOf(q));
      NoLanguages(q, order);
      RequestsAreFew(q);
      ghost var enough := AllFailOn(q, bad) && NeededByAll(q, order, bad) <= MAX_BISECTION_RUNS;
      NothingAdded(bad);
      NothingParsed(q, bad);
      assert order[..0] == [];
      for i := 0 to |order|
        invariant parse.Valid() && parse.remaining <= MAX_BISECTION_RUNS && EveryRunAsked(q, parse.calls)
        invariant OutPaths(parse.out) == multiset(PathsOfLanguages(q, order[..i]))
        invariant Told(parse.out, parse.calls)
        invariant batches == RequestCount(q, order[..i])
        invariant parse.runs <= batches + (MAX_BISECTION_RUNS - parse.remaining) + |PathsOfLanguages(q, order[..i])|
        invariant enough ==> Isolated(bad, parse.out)
        invariant enough ==> MAX_BISECTION_RUNS - parse.remaining <= NeededByAll(q, order[..i], bad)
      {
        LanguageKnown(q, order[i]);
        OneMoreLanguage(q, order, i);
        RequestsSoFar(q, order, i + 1);
        NeededByAllPrefix(q, order, i, bad);
        ghost var before, called := parse.out, parse.calls;
        var ok := ParseLanguage(q, order[i], bad);
        LanguageAsked(q, order[i], called, parse.calls);
        if !ok {
          return None;
        }
        OutPathsGrow(before, parse.out);
        ToldGrows(before, parse.out, called, parse.calls);
        if enough { IsolatedAppend(bad, before, parse.out[|before|..]); }
      }
      assert order[..|order|] == order;
      SortedOutput(parse.out, AcceptedPaths(q));
      SortElements(parse.out, ByPath());
      ToldByElements(parse.out, Sort(parse.out, ByPath()), parse.calls);
      if enough { IsolatedByElements(bad, parse.out, Sort(parse.out, ByPath())); }
      return Some(Sort(parse.out, ByPath()));
    }
  }

  // ---- what the budget pays for ----------------------------------------------------------------

  /** No request takes more than six rounds of halving. */
  lemma SixRounds(n: nat)
    requires n <= MAX_INPUT_FILES
    ensures CeilLog2(n) <= 6
  {
    CeilLog2Monotone(n, MAX_INPUT_FILES);
    assert CeilLog2(64) == 1 + CeilLog2(32) == 2 + CeilLog2(16) == 3 + CeilLog2(8) == 4 + CeilLog2(4);
  }

  lemma {:induction false} RequestsNeed(requests: seq<seq<File>>, bad: set<string>)
    requires forall c :: c in requests ==> |c| <= MAX_INPUT_FILES
    ensures NeededBy(requests, bad) <= 12 * BadCount(Flatten(requests), bad)
  {
    hide CeilLog2, BadCount;
    if requests == [] {
      BadCountZero([], bad);
    } else {
      var n := |requests| - 1;
      var before, last := requests[..n], requests[n];
      RequestsNeed(before, bad);
      assert last in requests;
      SixRounds(|last|);
      Times(2 * BadCount(last, bad), CeilLog2(|last|), 6);
      var all := Flatten(requests);
      BadCountSplit(all, |Flatten(before)|, bad);
      assert all[..|Flatten(before)|] == Flatten(before) && all[|Flatten(before)|..] == last;
    }
  }

  function Names(order: seq<string>): set<string> {
    set p | p in order
  }

  lemma NamesNext(order: seq<string>, p: string, bad: set<string>)
    requires p !in order
    ensures |Names(order + [p]) * bad| == |Names(order) * bad| + (if p in bad then 1 else 0)
  {
    var before, after := Names(order) * bad, Names(order + [p]) * bad;
    if p in bad {
      assert after == before + {p} && p !in before;
    } else {
      assert after == before;
    }
  }

  /** Distinct bad files are counted once. */
  lemma {:induction false} BadCountOf(q: Request, order: seq<string>, bad: set<string>)
    requires (forall p :: p in order ==> p in q.sources)
    requires forall i, j :: 0 <= i < j < |order| ==> order[i] != order[j]
    ensures BadCount(FilesAt(q, order), bad) == |Names(order) * bad|
  {
    hide Names;
    if order == [] {
      assert Names([]) * bad == {} by { assert Names([]) == {} by { NoNames(); } }
    } else {
      var n := |order| - 1;
      var files := FilesAt(q, order);
      BadCountOf(q, order[..n], bad);
      assert files[..n] == FilesAt(q, order[..n]);
      assert order == order[..n] + [order[n]];
      NamesNext(order[..n], order[n], bad);
    }
  }

  lemma NoNames()
    ensures Names([]) == {}
  {}

  lemma LanguageNeeds(q: Request, language: string, bad: set<string>)
    ensures NeededBy(Requests(q, language), bad) <= 12 * |PathsOfLanguage(q, language) * bad|
  {
    hide SortedSet, PathsOfLanguage, FilesAt, ChunkList, Greedy, NeededBy, BadCount, Less;
    var order := SortedSet(PathsOfLanguage(q, language));
    InSources(q, language);
    ChunksAreExact(FilesOf(q, language), q.budgets(language));
    assert forall c :: c in Requests(q, language) ==> FitsRequest(c, q.budgets(language));
    RequestsNeed(Requests(q, language), bad);
    forall i, j | 0 <= i < j < |order| ensures order[i] != order[j] {
      assert Less(order[i], order[j]);
      LessIrreflexive(order[i]);
    }
    BadCountOf(q, order, bad);
    assert Names(order) == PathsOfLanguage(q, language);
  }

  lemma {:induction false} LanguagesNeed(q: Request, order: seq<string>, i: nat, bad: set<string>)
    requires StrictlySorted(order, Less) && i <= |order|
    ensures NeededByAll(q, order[..i], bad) <= 12 * |PathsOfLanguages(q, order[..i]) * bad|
  {
    hide SortedSet, PathsOfLanguages, PathsOfLanguage, Requests, Less, NeededBy;
    if i > 0 {
      LanguagesNeed(q, order, i - 1, bad);
      NeededByAllPrefix(q, order, i - 1, bad);
      LanguageNeeds(q, order[i - 1], bad);
      LanguagesApart(q, order, i - 1);
      CountSplits(PathsOfLanguages(q, order[..i - 1]), PathsOfLanguage(q, order[i - 1]), bad);
    } else {
      assert order[..0] == [];
    }
  }

  lemma CountSplits(a: set<string>, b: set<string>, bad: set<string>)
    requires a !! b
    ensures |(a + b) * bad| == |a * bad| + |b * bad|
  {
    assert (a + b) * bad == a * bad + b * bad && (a * bad) !! (b * bad);
  }

  lemma LanguagesApart(q: Request, order: seq<string>, i: nat)
    requires StrictlySorted(order, Less) && i < |order|
    ensures PathsOfLanguages(q, order[..i + 1]) == PathsOfLanguages(q, order[..i]) + PathsOfLanguage(q, order[i])
    ensures PathsOfLanguages(q, order[..i]) !! PathsOfLanguage(q, order[i])
  {
    hide Less;
    PrefixIndex(order, i, i);
    assert order[..i + 1] == order[..i] + [order[i]];
  }

  /** FIVE. Whatever the number of files, languages and requests, the run budget is enough to isolate up to five
      bad files. */
  lemma FiveBadFilesAreAffordable(q: Request, bad: set<string>)
    requires |AcceptedPaths(q) * bad| <= 5
    ensures Affordable(q, bad)
  {
    hide SortedSet, PathsOfLanguages, LanguagesOf, AcceptedPaths, NeededByAll, Less;
    var order := SortedSet(LanguagesOf(q));
    NoLanguages(q, order);
    LanguagesNeed(q, order, |order|, bad);
    assert order[..|order|] == order;
  }

  lemma NothingNeeded(bad: set<string>)
    ensures NeededBy([], bad) == 0 && Told([], [])
  {}

  lemma NothingParsed(q: Request, bad: set<string>)
    ensures NeededByAll(q, [], bad) == 0 && Told([], []) && EveryRunAsked(q, [])
  {}

  lemma ToldGrows(before: seq<ParsedFile>, out: seq<ParsedFile>, called: seq<Call>, calls: seq<Call>)
    requires before <= out && called <= calls && Told(before, called) && Told(out[|before|..], calls[|called|..])
    ensures Told(out, calls) && out == before + out[|before|..]
  {
    hide Told;
    ToldAppend(before, out[|before|..], called, calls[|called|..]);
    assert out == before + out[|before|..] && calls == called + calls[|called|..];
  }

  lemma IsolatedByElements(bad: set<string>, a: seq<ParsedFile>, b: seq<ParsedFile>)
    requires Isolated(bad, a) && forall x :: x in b ==> x in a
    ensures Isolated(bad, b)
  {
    forall i | 0 <= i < |b| ensures b[i].Degraded? <==> b[i].path in bad {
      assert b[i] in a;
    }
  }

  lemma {:induction false} InFlatten(chunks: seq<seq<File>>, i: nat)
    requires i < |chunks|
    ensures forall f :: f in chunks[i] ==> f in Flatten(chunks)
    decreases |chunks|
  {
    var n := |chunks| - 1;
    if i < n { InFlatten(chunks[..n], i); }
  }

  lemma FileOf(q: Request, language: string, f: File)
    requires f in FilesOf(q, language)
    ensures OfLanguage(q, f, language)
  {
    hide SortedSet;
    InSources(q, language);
    var order := SortedSet(PathsOfLanguage(q, language));
    var i :| 0 <= i < |order| && FilesAt(q, order)[i] == f;
    assert order[i] in PathsOfLanguage(q, language);
  }

  lemma LanguageAsked(q: Request, language: string, called: seq<Call>, calls: seq<Call>)
    requires language in q.adapters && EveryRunAsked(q, called) && called <= calls
    requires Asked(q.adapters[language], FilesOf(q, language), calls, |called|)
    ensures EveryRunAsked(q, calls)
  {
    hide FilesOf, OfLanguage;
    forall k | 0 <= k < |calls| ensures SomeoneAsked(q, calls[k], k) {
      if k < |called| {
        assert SomeoneAsked(q, called[k], k) && calls[k] == called[k];
      } else {
        forall f | f in calls[k].request ensures OfLanguage(q, f, language) { FileOf(q, language, f); }
        assert AskedFor(q, calls[k], k, language);
      }
    }
  }

  /** There are no more requests than accepted files. */
  lemma RequestsAreFew(q: Request)
    ensures RequestCount(q, SortedSet(LanguagesOf(q))) <= |AcceptedPaths(q)|
  {
    hide SortedSet, PathsOfLanguages, LanguagesOf, AcceptedPaths, RequestCount;
    var order := SortedSet(LanguagesOf(q));
    NoLanguages(q, order);
    RequestsFew(q, order, |order|);
    assert order[..|order|] == order;
  }

  lemma {:induction false} RequestsFew(q: Request, order: seq<string>, i: nat)
    requires StrictlySorted(order, Less) && i <= |order|
    ensures RequestCount(q, order[..i]) <= |PathsOfLanguages(q, order[..i])|
  {
    hide SortedSet, PathsOfLanguages, PathsOfLanguage, Requests, Less;
    if i > 0 {
      RequestsFew(q, order, i - 1);
      assert order[..i][..i - 1] == order[..i - 1];
      OneMoreLanguage(q, order, i - 1);
      LanguageRequestsFew(q, order[i - 1]);
    }
  }

  lemma LanguageRequestsFew(q: Request, language: string)
    ensures |Requests(q, language)| <= |PathsOfLanguage(q, language)|
  {
    hide SortedSet, PathsOfLanguage, FilesAt, ChunkList, FitsRequest, Greedy;
    var order := SortedSet(PathsOfLanguage(q, language));
    LanguageFiles(q, language, order);
    ChunksAreExact(FilesAt(q, order), q.budgets(language));
    NonEmpty(Requests(q, language), q.budgets(language));
    NoMoreChunksThanFiles(Requests(q, language));
  }

  lemma OutPathsGrow(before: seq<ParsedFile>, after: seq<ParsedFile>)
    requires before <= after
    ensures OutPaths(after) == OutPaths(before) + OutPaths(after[|before|..])
  {
    assert after == before + after[|before|..];
    OutPathsAppend(before, after[|before|..]);
  }

  lemma LanguageKnown(q: Request, language: string)
    requires language in LanguagesOf(q)
    ensures language in q.adapters
  {}

  lemma {:induction false} RequestsSoFar(q: Request, order: seq<string>, i: nat)
    requires i <= |order|
    ensures RequestCount(q, order[..i]) <= RequestCount(q, order)
    ensures i > 0 ==> RequestCount(q, order[..i]) == RequestCount(q, order[..i - 1]) + |Requests(q, order[i - 1])|
    decreases |order| - i
  {
    hide Requests;
    if i > 0 { assert order[..i][..i - 1] == order[..i - 1]; }
    if i < |order| {
      RequestsSoFar(q, order, i + 1);
    } else {
      assert order[..i] == order;
    }
  }

  lemma MorePaths(q: Request, languages: seq<string>)
    ensures |PathsOfLanguages(q, languages)| <= |AcceptedPaths(q)|
  {
    assert PathsOfLanguages(q, languages) <= AcceptedPaths(q);
    SubsetSize(PathsOfLanguages(q, languages), AcceptedPaths(q));
  }

  lemma NonEmpty(chunks: seq<seq<File>>, budget: nat)
    requires forall c :: c in chunks ==> FitsRequest(c, budget)
    ensures forall c :: c in chunks ==> c != []
  {}

  /** The accepted paths of some languages. */
  function PathsOfLanguages(q: Request, languages: seq<string>): set<string> {
    set p | p in q.sources && Accepted(q, p) && q.languages[p] in languages
  }

  lemma OneMoreLanguage(q: Request, order: seq<string>, i: nat)
    requires StrictlySorted(order, Less) && i < |order|
    ensures var before, after, added :=
              PathsOfLanguages(q, order[..i]), PathsOfLanguages(q, order[..i + 1]), PathsOfLanguage(q, order[i]);
            && multiset(after) == multiset(before) + multiset(added)
            && |after| == |before| + |added| <= |AcceptedPaths(q)|
  {
    hide Less;
    var a, b := PathsOfLanguages(q, order[..i]), PathsOfLanguage(q, order[i]);
    PrefixIndex(order, i, i);
    assert order[..i + 1] == order[..i] + [order[i]];
    assert PathsOfLanguages(q, order[..i + 1]) == a + b;
    assert a !! b;
    MorePaths(q, order[..i + 1]);
    forall p ensures multiset(a + b)[p] == (multiset(a) + multiset(b))[p] {}
    assert multiset(a + b) == multiset(a) + multiset(b);
  }

  lemma LanguageFiles(q: Request, language: string, order: seq<string>)
    requires order == SortedSet(PathsOfLanguage(q, language))
    ensures forall p :: p in order ==> p in q.sources
    ensures multiset(Paths(FilesAt(q, order))) == multiset(PathsOfLanguage(q, language))
    ensures |FilesAt(q, order)| == |PathsOfLanguage(q, language)|
  {
    assert Paths(FilesAt(q, order)) == order;
    DistinctMultiset(order, PathsOfLanguage(q, language));
  }

  function ByPath(): (ParsedFile, ParsedFile) -> bool {
    (a: ParsedFile, b: ParsedFile) => Less(a.path, b.path)
  }

  lemma ByPathOrders()
    ensures StrictOrder(ByPath())
  {
    hide Less;
    var lt := ByPath();
    forall x: ParsedFile ensures !lt(x, x) { LessIrreflexive(x.path); }
    forall x: ParsedFile, y: ParsedFile, z: ParsedFile | lt(x, y) && lt(y, z) ensures lt(x, z) {
      LessTransitive(x.path, y.path, z.path);
    }
    forall x: ParsedFile, y: ParsedFile, z: ParsedFile | lt(x, z) ensures lt(x, y) || lt(y, z) {
      LessTotal(x.path, y.path);
      if Less(y.path, x.path) { LessTransitive(y.path, x.path, z.path); }
    }
  }

  lemma OutputComparable(out: seq<ParsedFile>, paths: set<string>)
    requires OutPaths(out) == multiset(paths)
    ensures Comparable(out, ByPath())
  {
    hide Less;
    var list := OutList(out);
    forall i, j | 0 <= i < j < |out| ensures ByPath()(out[i], out[j]) || ByPath()(out[j], out[i]) {
      if list[i] == list[j] {
        TwoOccurrences(list, i, j);
      }
      assert multiset(list)[list[i]] <= 1;
      LessTotal(out[i].path, out[j].path);
    }
  }

  lemma SameOutPaths(a: seq<ParsedFile>, b: seq<ParsedFile>)
    requires forall x :: x in a ==> x in b
    ensures forall p :: p in OutList(a) ==> p in OutList(b)
  {
    forall p | p in OutList(a) ensures p in OutList(b) {
      var i :| 0 <= i < |a| && OutList(a)[i] == p;
      assert a[i] in b;
      var k :| 0 <= k < |b| && b[k] == a[i];
      assert OutList(b)[k] == p;
    }
  }

  /** Output whose paths are a set, sorted by path, lists that set in order. */
  lemma SortedOutput(out: seq<ParsedFile>, paths: set<string>)
    requires OutPaths(out) == multiset(paths)
    ensures OutList(Sort(out, ByPath())) == SortedSet(paths)
  {
    hide Less, SortedSet, Comparable, Sort;
    var sorted := Sort(out, ByPath());
    OutputComparable(out, paths);
    ByPathOrders();
    SortStrict(out, ByPath());
    SortElements(out, ByPath());
    SameOutPaths(out, sorted);
    SameOutPaths(sorted, out);
    forall p ensures p in OutList(sorted) <==> p in paths {
      assert p in OutList(out) <==> p in multiset(OutList(out));
    }
    forall i, j | 0 <= i < j < |sorted| ensures Less(OutList(sorted)[i], OutList(sorted)[j]) {
      assert ByPath()(sorted[i], sorted[j]);
    }
    SortedSetUnique(OutList(sorted), paths);
  }

  lemma NoLanguages(q: Request, order: seq<string>)
    requires forall language :: language in order <==> language in LanguagesOf(q)
    ensures PathsOfLanguages(q, order[..0]) == {} && RequestCount(q, order[..0]) == 0
    ensures OutPaths([]) == multiset(PathsOfLanguages(q, order[..0]))
    ensures PathsOfLanguages(q, order) == AcceptedPaths(q)
  {
    forall p | p in AcceptedPaths(q) ensures p in PathsOfLanguages(q, order) {
      assert q.languages[p] in LanguagesOf(q);
    }
  }

  lemma NothingYet()
    ensures OutPaths([]) == multiset(Paths([])) == multiset{}
  {}

  lemma PathsJoin(a: seq<File>, b: seq<File>)
    ensures multiset(Paths(a + b)) == multiset(Paths(a)) + multiset(Paths(b))
  {
    assert Paths(a + b) == Paths(a) + Paths(b);
  }

  lemma {:induction false} FlattenLength(chunks: seq<seq<File>>, i: nat)
    requires i < |chunks|
    ensures |Flatten(chunks[..i])| + |chunks[i]| <= |Flatten(chunks)|
    decreases |chunks|
  {
    var n := |chunks| - 1;
    if i < n {
      assert chunks[..n][..i] == chunks[..i];
      FlattenLength(chunks[..n], i);
    }
  }
}

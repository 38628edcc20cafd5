/** Per-variation cut accounting: ordered pass counters keyed by cut name.
    A failed cut is reported as a skip signal instead of raising `SkipEvent`. */
module Cutflows {
  import Decimal

  /** Cut names in first-seen order and the number of records that passed each. */
  datatype Cutflow = Cutflow(names: seq<string>, counts: map<string, nat>)

  /** The outcome of one `cut_if`: the updated counters and whether the record
      is skipped (the `SkipEvent` signal). */
  datatype CutStep = CutStep(flow: Cutflow, skipped: bool)

  /** The invariant `cut_if` maintains: no name twice, the name list and the
      counter keys agree, and every recorded counter is at least one. */
  predicate Valid(c: Cutflow) {
    && (forall a, b | 0 <= a < b < |c.names| :: c.names[a] != c.names[b])
    && (forall n | n in c.counts :: n in c.names)
    && (forall k | 0 <= k < |c.names| :: c.names[k] in c.counts)
    && (forall n | n in c.counts :: c.counts[n] >= 1)
  }

  /** How many records passed cut `n` so far (zero for a cut never seen). */
  function Count(c: Cutflow, n: string): nat {
    if n in c.counts then c.counts[n] else 0
  }

  /** A fresh cutflow, as built when a variation is constructed. */
  function Empty(): (c: Cutflow)
    ensures Valid(c)
    ensures |c.names| == 0
    ensures forall n :: Count(c, n) == 0
  {
    Cutflow([], map[])
  }

  /** `cut_if(expr, name)`: a true `expr` fails the cut and skips the record
      without touching the counters; otherwise the named counter goes up by
      one, and a name seen for the first time is appended to the order. */
  function CutIf(c: Cutflow, expr: bool, name: string): (r: CutStep)
    ensures r.skipped <==> expr
    ensures expr ==> r.flow == c
    ensures forall n :: Count(r.flow, n) == Count(c, n) + (if !expr && n == name then 1 else 0)
    ensures !expr && name !in c.counts ==> r.flow.names == c.names + [name]
    ensures name in c.counts ==> r.flow.names == c.names
    ensures Valid(c) ==> Valid(r.flow)
  {
    if expr then CutStep(c, true)
    else if name in c.counts then CutStep(c.(counts := c.counts[name := c.counts[name] + 1]), false)
    else CutStep(Cutflow(c.names + [name], c.counts[name := 1]), false)
  }

  // ---------------------------------------------------------------------------
  // A fixed chain of cuts applied to each record

  /** Number of leading cuts a record passes: the index of the first failing
      cut, or all of them. */
  function Passed(fails: seq<bool>): (p: nat)
    ensures p <= |fails|
    ensures forall k | 0 <= k < p :: !fails[k]
    ensures p < |fails| ==> fails[p]
  {
    if |fails| == 0 then 0 else if fails[0] then 0 else 1 + Passed(fails[1..])
  }

  /** Applies `cut_if(fails[k], names[k])` for k = 0, 1, ... until the first
      cut fails, as a process function written as a chain of cuts does. */
  function ApplyChain(c: Cutflow, fails: seq<bool>, names: seq<string>): (r: CutStep)
    requires |fails| == |names|
    ensures Valid(c) ==> Valid(r.flow)
    decreases |names|
  {
    if |names| == 0 then CutStep(c, false)
    else
      var s := CutIf(c, fails[0], names[0]);
      if s.skipped then s else ApplyChain(s.flow, fails[1..], names[1..])
  }

  predicate Distinct(names: seq<string>) {
    forall a, b | 0 <= a < b < |names| :: names[a] != names[b]
  }

  /** Counters of a chain of cuts never increase along the chain. */
  predicate NonIncreasing(c: Cutflow, names: seq<string>) {
    forall a, b | 0 <= a < b < |names| :: Count(c, names[a]) >= Count(c, names[b])
  }

  /** One record through a chain of distinct cuts: exactly the cuts before the
      first failure gain one, every other counter stays, and the record is
      skipped iff some cut failed. */
  lemma {:induction false} ChainCounts(c: Cutflow, fails: seq<bool>, names: seq<string>)
    requires |fails| == |names| && Distinct(names)
    ensures ApplyChain(c, fails, names).skipped <==> Passed(fails) < |names|
    ensures forall k | 0 <= k < |names| ::
      Count(ApplyChain(c, fails, names).flow, names[k]) == Count(c, names[k]) + (if k < Passed(fails) then 1 else 0)
    ensures forall n | n !in names :: Count(ApplyChain(c, fails, names).flow, n) == Count(c, n)
    decreases |names|
  {
    if |names| > 0 {
      var s := CutIf(c, fails[0], names[0]);
      if !s.skipped {
        ChainCounts(s.flow, fails[1..], names[1..]);
        var r := ApplyChain(c, fails, names);
        forall k | 0 <= k < |names|
          ensures Count(r.flow, names[k]) == Count(c, names[k]) + (if k < Passed(fails) then 1 else 0)
        {
          if k > 0 {
            assert names[1..][k - 1] == names[k];
            assert names[k] != names[0];
          } else {
            assert names[0] !in names[1..];
          }
        }
        forall n | n !in names
          ensures Count(r.flow, n) == Count(c, n)
        {
          assert n !in names[1..];
        }
      }
    }
  }

  /** One more record keeps the counters of a fixed chain non-increasing. */
  lemma ChainKeepsOrder(c: Cutflow, fails: seq<bool>, names: seq<string>)
    requires |fails| == |names| && Distinct(names)
    requires NonIncreasing(c, names)
    ensures NonIncreasing(ApplyChain(c, fails, names).flow, names)
  {
    ChainCounts(c, fails, names);
  }

  /** Runs every record of a stream through the same chain of cuts. */
  function ApplyRecords(c: Cutflow, records: seq<seq<bool>>, names: seq<string>): (r: Cutflow)
    requires forall r | 0 <= r < |records| :: |records[r]| == |names|
    ensures Valid(c) ==> Valid(r)
    decreases |records|
  {
    if |records| == 0 then c
    else ApplyRecords(ApplyChain(c, records[0], names).flow, records[1..], names)
  }

  /** Over any number of records, starting from a fresh cutflow, the count of
      an earlier cut is at least the count of any later cut. */
  lemma {:induction false} CountsNonIncreasing(c: Cutflow, records: seq<seq<bool>>, names: seq<string>)
    requires forall r | 0 <= r < |records| :: |records[r]| == |names|
    requires Distinct(names) && NonIncreasing(c, names)
    ensures NonIncreasing(ApplyRecords(c, records, names), names)
    decreases |records|
  {
    if |records| > 0 {
      ChainKeepsOrder(c, records[0], names);
      CountsNonIncreasing(ApplyChain(c, records[0], names).flow, records[1..], names);
    }
  }

  // ---------------------------------------------------------------------------
  // Report

  /** The fixed text reported for a cutflow that never recorded a cut. */
  const NoCuts: string := "(no cuts)"

  function Spaces(n: nat): (s: string)
    ensures |s| == n && forall k | 0 <= k < n :: s[k] == ' '
  {
    seq(n, _ => ' ')
  }

  /** Length of the longest name; the column every count is aligned to. */
  function MaxWidth(names: seq<string>): (w: nat)
    ensures forall k | 0 <= k < |names| :: |names[k]| <= w
    ensures |names| > 0 ==> exists k | 0 <= k < |names| :: |names[k]| == w
  {
    if |names| == 0 then 0
    else
      var rest := MaxWidth(names[1..]);
      assert forall k | 1 <= k < |names| :: names[k] == names[1..][k - 1];
      if |names[0]| >= rest then |names[0]| else rest
  }

  /** One report line: the name, a colon, padding up to the common width, a
      tab, the count in decimal, a newline. */
  function Line(name: string, count: nat, width: nat): string
    requires |name| <= width
  {
    name + ":" + Spaces(width - |name|) + "\t" + Decimal.Render(count) + "\n"
  }

  function Concat(lines: seq<string>): string {
    if |lines| == 0 then "" else lines[0] + Concat(lines[1..])
  }

  /** The report lines, one per recorded cut in first-seen order. */
  function Lines(c: Cutflow): (ls: seq<string>)
    requires Valid(c)
    ensures |ls| == |c.names|
  {
    var w := MaxWidth(c.names);
    seq(|c.names|, k requires 0 <= k < |c.names| => Line(c.names[k], c.counts[c.names[k]], w))
  }

  /** `repr` of a cutflow. */
  function Report(c: Cutflow): string
    requires Valid(c)
  {
    if |c.names| == 0 then NoCuts else Concat(Lines(c))
  }

  /** The layout of one line: it starts with the name and a colon, only spaces
      follow up to the tab at column `width + 1`, and the count can be read back
      from the digits between the tab and the final newline. */
  lemma LineLayout(name: string, count: nat, width: nat)
    requires |name| <= width
    ensures var l := Line(name, count, width);
      && |l| >= width + 3
      && l[..|name|] == name
      && l[|name|] == ':'
      && (forall k | |name| < k < width + 1 :: l[k] == ' ')
      && l[width + 1] == '\t'
      && l[|l| - 1] == '\n'
      && (forall k | width + 2 <= k < |l| - 1 :: Decimal.IsDigit(l[k]))
      && Decimal.Parse(l[width + 2..|l| - 1]) == count
  {
    var l := Line(name, count, width);
    var digits := Decimal.Render(count);
    assert l == name + ":" + Spaces(width - |name|) + "\t" + digits + "\n";
    assert l[width + 2..|l| - 1] == digits;
    Decimal.ParseRender(count);
  }

  lemma {:induction false} ConcatEndsWithNewline(lines: seq<string>)
    requires |lines| > 0
    requires forall k | 0 <= k < |lines| :: |lines[k]| > 0 && lines[k][|lines[k]| - 1] == '\n'
    ensures var s := Concat(lines); |s| > 0 && s[|s| - 1] == '\n'
    decreases |lines|
  {
    if |lines| > 1 {
      ConcatEndsWithNewline(lines[1..]);
    } else {
      assert Concat(lines) == lines[0] + Concat([]);
    }
  }

  /** The report is the sentinel exactly when no cut was ever passed. */
  lemma ReportIsSentinelIffEmpty(c: Cutflow)
    requires Valid(c)
    ensures Report(c) == NoCuts <==> |c.names| == 0
  {
    if |c.names| > 0 {
      var ls := Lines(c);
      forall k | 0 <= k < |ls|
        ensures |ls[k]| > 0 && ls[k][|ls[k]| - 1] == '\n'
      {
        LineLayout(c.names[k], c.counts[c.names[k]], MaxWidth(c.names));
      }
      ConcatEndsWithNewline(ls);
      var s := Report(c);
      assert s[|s| - 1] != NoCuts[|NoCuts| - 1];
    }
  }

  /** Each report line names one cut, in first-seen order, and carries that
      cut's count aligned at the common column. */
  lemma ReportEntries(c: Cutflow, k: nat)
    requires Valid(c) && k < |c.names|
    ensures Report(c) == Concat(Lines(c)) && |Lines(c)| == |c.names|
    ensures var l := Lines(c)[k]; var w := MaxWidth(c.names);
      && |l| >= w + 3
      && l[..|c.names[k]|] == c.names[k]
      && l[w + 1] == '\t'
      && Decimal.Parse(l[w + 2..|l| - 1]) == c.counts[c.names[k]]
  {
    LineLayout(c.names[k], c.counts[c.names[k]], MaxWidth(c.names));
  }
}

/** The child's output streams as seen by the runner. A stream is the
    sequence of chunks it will deliver: each `readline` or `readuntil` takes
    the next chunk whole, and a `readline` at end of stream gives "". The
    runner's reading loops are specified here over such sequences. */
module Streams {
  import opened Wrappers
  import opened Seqs
  import opened Text
  import opened Command

  /** What `readline` gives on a stream with these chunks left. */
  function Head(s: seq<string>): string {
    if |s| == 0 then "" else s[0]
  }

  /** What is left after one `readline`; nothing moves at end of stream. */
  function Tail(s: seq<string>): seq<string> {
    if |s| == 0 then [] else s[1..]
  }

  /** The number of passes a drain makes over stdout when it stops as soon as
      stdout is at end of stream: one pass even for an empty stdout. */
  function Rounds(out: seq<string>): nat {
    if |out| <= 1 then 1 else |out|
  }

  /** The text the alternating drain of process.py appends: each pass one
      stdout line then one stderr line, until the stdout line just read was
      the last one. It starts with the first pass, and it reads one stderr
      line per pass and no more: its length is all of stdout and the stderr
      lines of the passes made, so later stderr lines never reach it. */
  function Alternate(out: seq<string>, err: seq<string>): (r: string)
    ensures StartsWith(r, Head(out) + Head(err))
    ensures |r| == |Concat(out)| + |Concat(err[..Min(|err|, Rounds(out))])|
    decreases |out|
  {
    if |out| <= 1 then
      LastPassLength(out, err);
      Head(out) + Head(err)
    else
      EarlierPassLength(out, err);
      out[0] + Head(err) + Alternate(out[1..], Tail(err))
  }

  /** One pass of the alternating drain: the two lines it reads, and the
      stderr lines it consumes. */
  lemma AlternateStep(out: seq<string>, err: seq<string>)
    ensures Alternate(out, err) ==
      Head(out) + Head(err) + (if |out| <= 1 then "" else Alternate(out[1..], Tail(err)))
    ensures Min(|err|, Rounds(out)) ==
      (if |err| > 0 then 1 else 0) + (if |out| <= 1 then 0 else Min(|Tail(err)|, Rounds(out[1..])))
  {
    if |out| <= 1 {
      assert Head(out) + Head(err) + "" == Head(out) + Head(err);
    }
  }

  /** Appending three pieces one after the other; a lemma of its own keeps
      the associativity step out of the drain loop's larger context. */
  lemma AppendThree(s: string, a: string, b: string, rest: string)
    ensures s + a + b + rest == s + (a + b + rest)
  {
  }

  /** The `i`-th line a stream delivers, "" once it is exhausted. */
  function LineAt(s: seq<string>, i: nat): string {
    if i < |s| then s[i] else ""
  }

  /** Pass by pass: the stdout line and the stderr line read in pass `i`. */
  function Passes(out: seq<string>, err: seq<string>): seq<string> {
    seq(Rounds(out), i requires 0 <= i < Rounds(out) => LineAt(out, i) + LineAt(err, i))
  }

  /** The alternating drain appends exactly its passes, in order: the `i`-th
      stdout line together with the `i`-th stderr line, for as many passes
      as stdout has lines (at least one). */
  lemma {:induction false} AlternatePasses(out: seq<string>, err: seq<string>)
    ensures Alternate(out, err) == Concat(Passes(out, err))
    decreases |out|
  {
    var p := Passes(out, err);
    if |out| <= 1 {
      assert p == [Head(out) + Head(err)];
      assert Concat(p) == p[0] + Concat(p[1..]);
    } else {
      AlternatePasses(out[1..], Tail(err));
      var q := Passes(out[1..], Tail(err));
      assert |p| == |q| + 1;
      forall i | 0 <= i < |q| ensures p[1..][i] == q[i] {
        assert LineAt(out, i + 1) == LineAt(out[1..], i);
        assert LineAt(err, i + 1) == LineAt(Tail(err), i);
      }
      assert p[1..] == q;
      assert p[0] == out[0] + Head(err);
    }
  }

  /** With nothing on stderr the drain gives stdout back line for line. */
  lemma {:induction false} AlternateWithoutStderr(out: seq<string>)
    ensures Alternate(out, []) == Concat(out)
    decreases |out|
  {
    var none: seq<string> := [];
    assert Head(none) == "" && Tail(none) == none;
    if |out| > 1 {
      assert Alternate(out, none) == out[0] + Alternate(out[1..], none) by {
        assert Alternate(out, none) == out[0] + Head(none) + Alternate(out[1..], Tail(none));
      }
      AlternateWithoutStderr(out[1..]);
      assert Concat(out) == out[0] + Concat(out[1..]);
    } else if |out| == 1 {
      assert Concat(out) == out[0] + Concat(out[1..]);
    }
  }

  /** The lengths the last pass adds up: all of a stdout of at most one line
      and at most one stderr line. */
  lemma LastPassLength(out: seq<string>, err: seq<string>)
    requires |out| <= 1
    ensures |Head(out) + Head(err)| == |Concat(out)| + |Concat(err[..Min(|err|, Rounds(out))])|
  {
    var k := Min(|err|, Rounds(out));
    assert |Concat(out)| == |Head(out)| by {
      if |out| == 1 { assert Concat(out) == out[0] + Concat(out[1..]); }
    }
    assert Concat(err[..k]) == Head(err) by {
      if |err| > 0 {
        assert err[..k] == [err[0]];
        assert Concat([err[0]]) == err[0] + Concat([]);
      } else {
        assert err[..k] == [];
      }
    }
  }

  /** The lengths an earlier pass adds up: the first stdout line and the
      first stderr line, then what the later passes read. */
  lemma EarlierPassLength(out: seq<string>, err: seq<string>)
    requires |out| > 1
    ensures |Concat(out)| + |Concat(err[..Min(|err|, Rounds(out))])|
      == |out[0] + Head(err)| + |Concat(out[1..])| + |Concat(Tail(err)[..Min(|Tail(err)|, Rounds(out[1..]))])|
  {
    var k := Min(|err|, Rounds(out));
    var later := Tail(err)[..Min(|Tail(err)|, Rounds(out[1..]))];
    assert Concat(out) == out[0] + Concat(out[1..]);
    assert Concat(err[..k]) == Head(err) + Concat(later) by {
      if |err| > 0 {
        assert Rounds(out) == |out| && Rounds(out[1..]) == |out| - 1;
        assert 1 <= k && Min(|Tail(err)|, Rounds(out[1..])) == k - 1;
        assert later == err[1..k];
        assert err[..k] == [err[0]] + err[1..k];
        ConcatAppend([err[0]], later);
        assert Concat([err[0]]) == err[0] + Concat([]);
      } else {
        assert err[..k] == [] && later == [];
      }
    }
  }

  /** The index of the first fragment that starts with the credential prompt
      "[sudo]", if any: the loop of process.py skips every fragment before
      it. */
  function PromptIndex(frags: seq<string>): (r: Option<nat>)
    ensures r.Some? ==> r.value < |frags| && StartsWith(frags[r.value], "[sudo]")
    ensures r.Some? ==> forall j :: 0 <= j < r.value ==> !StartsWith(frags[j], "[sudo]")
    ensures r.None? ==> forall j :: 0 <= j < |frags| ==> !StartsWith(frags[j], "[sudo]")
    decreases |frags|
  {
    if |frags| == 0 then None
    else if StartsWith(frags[0], "[sudo]") then Some(0)
    else match PromptIndex(frags[1..])
      case None => None
      case Some(i) => Some(i + 1)
  }

  /** What reading the child's output leaves behind: how it ended, what was
      written to the child's stdin, what was appended to `output`, and how
      many chunks of stdout and of stderr were consumed. */
  datatype Session = Session(
    result: Outcome<ProcessError>,
    written: seq<string>,
    output: string,
    outRead: nat,
    errRead: nat)

  /** `m` interleaves the lines of `a` and `b`, each kept in its own order:
      what two drains appending to the same `output` concurrently can give. */
  predicate IsMerge(m: seq<string>, a: seq<string>, b: seq<string>)
    decreases |m|
  {
    if |m| == 0 then |a| == 0 && |b| == 0
    else
      (|a| > 0 && m[0] == a[0] && IsMerge(m[1..], a[1..], b))
      || (|b| > 0 && m[0] == b[0] && IsMerge(m[1..], a, b[1..]))
  }

  /** Every interleaving holds all lines of both streams and nothing else. */
  lemma {:induction false} MergeCounts(m: seq<string>, a: seq<string>, b: seq<string>)
    requires IsMerge(m, a, b)
    ensures |m| == |a| + |b|
    ensures multiset(m) == multiset(a) + multiset(b)
    ensures |Concat(m)| == |Concat(a)| + |Concat(b)|
    decreases |m|
  {
    if |m| > 0 {
      assert m == [m[0]] + m[1..];
      if |a| > 0 && m[0] == a[0] && IsMerge(m[1..], a[1..], b) {
        MergeCounts(m[1..], a[1..], b);
        assert a == [a[0]] + a[1..];
      } else {
        MergeCounts(m[1..], a, b[1..]);
        assert b == [b[0]] + b[1..];
      }
    }
  }

  /** Draining stdout to the end and then stderr is one of the interleavings. */
  lemma {:induction false} AppendIsMerge(a: seq<string>, b: seq<string>)
    ensures IsMerge(a + b, a, b)
    decreases |a| + |b|
  {
    if |a| > 0 {
      AppendIsMerge(a[1..], b);
      assert (a + b)[1..] == a[1..] + b;
    } else if |b| > 0 {
      AppendIsMerge([], b[1..]);
      assert a + b == b;
      assert [] + b[1..] == b[1..];
    }
  }
}

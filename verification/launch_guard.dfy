/** The dev runner's "start electron after a VALID build" guard: a one-bit
    state (`isElectronOpen`) folded over the stdout chunks of the children. */
module LaunchGuard {
  import opened ConsoleFormat

  /** The pattern of the launch test. It is not anchored to a word, so the
      "bundle is now INVALID" message matches as well as "bundle is now VALID". */
  const Marker: string := "VALID"

  predicate StartsWith(s: string, p: string) {
    |p| <= |s| && s[..|p|] == p
  }

  /** A test of the regular expression made of the literal `p`: `p` occurs in `s`. */
  predicate Contains(s: string, p: string)
    decreases |s|
  {
    StartsWith(s, p) || (|s| > 0 && Contains(s[1..], p))
  }

  /** `p` occurs in `s` starting at index `i`. */
  predicate OccursAt(s: string, p: string, i: int) {
    0 <= i && i + |p| <= |s| && s[i..i + |p|] == p
  }

  /** `Contains` agrees with the positional definition of an occurrence. */
  lemma {:induction false} ContainsIffOccurs(s: string, p: string)
    ensures Contains(s, p) <==> exists i :: OccursAt(s, p, i)
    decreases |s|
  {
    if StartsWith(s, p) {
      assert OccursAt(s, p, 0);
    }
    if |s| > 0 {
      ContainsIffOccurs(s[1..], p);
      if Contains(s[1..], p) {
        var i :| OccursAt(s[1..], p, i);
        assert s[i + 1..i + 1 + |p|] == s[1..][i..i + |p|];
        assert OccursAt(s, p, i + 1);
      }
      if exists i :: OccursAt(s, p, i) {
        var i :| OccursAt(s, p, i);
        if i > 0 {
          assert s[1..][i - 1..i - 1 + |p|] == s[i..i + |p|];
          assert OccursAt(s[1..], p, i - 1);
        } else {
          assert StartsWith(s, p);
        }
      }
    } else {
      if exists i :: OccursAt(s, p, i) {
        var i :| OccursAt(s, p, i);
        assert StartsWith(s, p);
      }
    }
  }

  /** Text before an occurrence that never holds the pattern's first
      character cannot take part in an occurrence. */
  lemma {:induction false} ContainsSkipsPrefix(q: string, x: string, p: string)
    requires |p| > 0
    requires forall i :: 0 <= i < |q| ==> q[i] != p[0]
    ensures Contains(q + x, p) <==> Contains(x, p)
    decreases |q|
  {
    if |q| == 0 {
      assert q + x == x;
    } else {
      assert (q + x)[0] == q[0];
      assert (q + x)[1..] == q[1..] + x;
      ContainsSkipsPrefix(q[1..], x, p);
    }
  }

  lemma StartsWithCons(s: string, p: string)
    requires |s| > 0 && |p| > 0
    ensures StartsWith(s, p) <==> s[0] == p[0] && StartsWith(s[1..], p[1..])
  {
  }

  /** Up to the first newline, indentation changes nothing, so a pattern
      without newlines starts the indented text iff it starts the original. */
  lemma {:induction false} StartsWithIndent(u: string, pad: string, p: string)
    requires forall i :: 0 <= i < |p| ==> p[i] != '\n'
    ensures StartsWith(Indent(u, pad), p) <==> StartsWith(u, p)
    decreases |p|
  {
    if |p| > 0 && |u| > 0 {
      var v := Indent(u, pad);
      StartsWithCons(v, p);
      StartsWithCons(u, p);
      if u[0] != '\n' {
        assert v[1..] == Indent(u[1..], pad);
        StartsWithIndent(u[1..], pad, p[1..]);
      }
    }
  }

  /** Indentation neither creates nor destroys an occurrence of a pattern
      that has no newline and does not start with a padding character. */
  lemma {:induction false} ContainsIndent(t: string, pad: string, p: string)
    requires |p| > 0 && p[0] != '\n'
    requires forall i :: 0 <= i < |p| ==> p[i] != '\n'
    requires forall i :: 0 <= i < |pad| ==> pad[i] != p[0]
    ensures Contains(Indent(t, pad), p) <==> Contains(t, p)
    decreases |t|
  {
    if |t| > 0 {
      ContainsIndent(t[1..], pad, p);
      var v := Indent(t, pad);
      if t[0] == '\n' {
        assert v == ("\n" + pad) + Indent(t[1..], pad);
        ContainsSkipsPrefix("\n" + pad, Indent(t[1..], pad), p);
      } else {
        assert v[1..] == Indent(t[1..], pad);
        StartsWithIndent(t, pad, p);
      }
    }
  }

  lemma SliceOfSlice(s: string, a: int, b: int, c: int, d: int)
    requires 0 <= a <= b <= |s| && 0 <= c <= d <= b - a
    ensures s[a..b][c..d] == s[a + c..a + d]
  {
    forall k | 0 <= k < d - c
      ensures s[a..b][c..d][k] == s[a + c..a + d][k]
    {
    }
  }

  /** An occurrence in `s` of a pattern that neither starts nor ends with
      white space lies inside the non-white-space slice `r` of `s`. */
  lemma OccurrenceSurvivesTrim(s: string, r: string, lo: int, p: string, i: int)
    requires TrimmedAt(s, r, lo) && OccursAt(s, p, i)
    requires |p| > 0 && !IsWhiteSpace(p[0]) && !IsWhiteSpace(p[|p| - 1])
    ensures OccursAt(r, p, i - lo)
  {
    assert s[i] == p[0] && s[i + |p| - 1] == p[|p| - 1];
    SliceOfSlice(s, lo, lo + |r|, i - lo, i - lo + |p|);
  }

  /** An occurrence in the slice `r` is one in `s`, shifted by `lo`. */
  lemma OccurrenceInSlice(s: string, r: string, lo: int, p: string, j: int)
    requires TrimmedAt(s, r, lo) && OccursAt(r, p, j)
    ensures OccursAt(s, p, lo + j)
  {
    SliceOfSlice(s, lo, lo + |r|, j, j + |p|);
  }

  lemma OccursInTrimmed(s: string, r: string, lo: int, p: string)
    requires TrimmedAt(s, r, lo)
    requires |p| > 0 && !IsWhiteSpace(p[0]) && !IsWhiteSpace(p[|p| - 1])
    ensures (exists i :: OccursAt(s, p, i)) <==> (exists j :: OccursAt(r, p, j))
  {
    if exists i :: OccursAt(s, p, i) {
      var i :| OccursAt(s, p, i);
      OccurrenceSurvivesTrim(s, r, lo, p, i);
    }
    if exists j :: OccursAt(r, p, j) {
      var j :| OccursAt(r, p, j);
      OccurrenceInSlice(s, r, lo, p, j);
    }
  }

  /** Trimming neither creates nor destroys an occurrence of a pattern that
      neither starts nor ends with white space. */
  lemma {:induction false} ContainsTrim(s: string, p: string)
    requires |p| > 0 && !IsWhiteSpace(p[0]) && !IsWhiteSpace(p[|p| - 1])
    ensures Contains(Trim(s), p) <==> Contains(s, p)
  {
    var r := Trim(s);
    var lo :| TrimmedAt(s, r, lo);
    ContainsIffOccurs(r, p);
    ContainsIffOccurs(s, p);
    OccursInTrimmed(s, r, lo, p);
  }

  /** One chunk of a child's stdout, with the shell command the child runs. */
  datatype Chunk = Chunk(command: string, data: string)

  /** The test in `run`: `/VALID/` on the chunk trimmed and indented by the
      command's length plus two. */
  predicate LaunchTest(c: Chunk) {
    Contains(Indent(Trim(c.data), Repeat(" ", |c.command| + 2)), Marker)
  }

  /** The raw chunk contains the marker. */
  predicate HasMarker(c: Chunk) {
    Contains(c.data, Marker)
  }

  /** Trimming and indenting before the test make no difference: the test
      fires exactly on chunks whose raw text contains the marker. */
  lemma LaunchTestSeesRawChunk(c: Chunk)
    ensures LaunchTest(c) <==> HasMarker(c)
  {
    var pad := Repeat(" ", |c.command| + 2);
    CopiesOfChar(' ', |c.command| + 2);
    assert Marker[0] == 'V' && Marker[|Marker| - 1] == 'D';
    ContainsIndent(Trim(c.data), pad, Marker);
    ContainsTrim(c.data, Marker);
  }

  /** A chunk reporting an invalid bundle passes the launch test too. */
  lemma InvalidBundleLaunches(command: string)
    ensures LaunchTest(Chunk(command, "webpack: bundle is now INVALID."))
  {
    var data := "webpack: bundle is now INVALID.";
    assert OccursAt(data, Marker, 25);
    ContainsIffOccurs(data, Marker);
    LaunchTestSeesRawChunk(Chunk(command, data));
  }

  /** The guard after some chunks: whether electron was started, and the
      indices of the chunks on which it was started. */
  datatype Guard = Guard(electronOpen: bool, launches: seq<nat>)

  /** The guard folded over the launch-test outcomes of the chunks in arrival
      order, from the initial `isElectronOpen = false`: electron is started
      when the test passes and it is not yet open. */
  function Fold(passes: seq<bool>): Guard
    decreases |passes|
  {
    if |passes| == 0 then Guard(false, [])
    else
      var g := Fold(passes[..|passes| - 1]);
      var last := |passes| - 1;
      if passes[last] && !g.electronOpen then Guard(true, g.launches + [last])
      else g
  }

  /** The launch-test outcome of each chunk. */
  function Tests(chunks: seq<Chunk>): (r: seq<bool>)
    ensures |r| == |chunks|
    ensures forall i :: 0 <= i < |chunks| ==> r[i] == LaunchTest(chunks[i])
  {
    seq(|chunks|, i requires 0 <= i < |chunks| => LaunchTest(chunks[i]))
  }

  /** The stdout handler of `run` applied to every chunk in arrival order,
      from the initial `isElectronOpen = false`. */
  function Run(chunks: seq<Chunk>): Guard
    decreases |chunks|
  {
    if |chunks| == 0 then Guard(false, [])
    else
      var g := Run(chunks[..|chunks| - 1]);
      var last := |chunks| - 1;
      if LaunchTest(chunks[last]) && !g.electronOpen then Guard(true, g.launches + [last])
      else g
  }

  /** Running the handler over the chunks is folding the guard over their
      launch-test outcomes. */
  lemma {:induction false} RunFoldsTests(chunks: seq<Chunk>)
    ensures Run(chunks) == Fold(Tests(chunks))
    decreases |chunks|
  {
    if |chunks| > 0 {
      var init := chunks[..|chunks| - 1];
      RunFoldsTests(init);
      assert Tests(chunks)[..|chunks| - 1] == Tests(init);
    }
  }

  /** The launch happens at most once, and, if the test passes at all,
      exactly once: at the first passing index. */
  lemma {:induction false} LaunchesOnceOnFirstPass(passes: seq<bool>)
    ensures |Fold(passes).launches| <= 1
    ensures Fold(passes).electronOpen <==> |Fold(passes).launches| == 1
    ensures Fold(passes).electronOpen <==> exists i :: 0 <= i < |passes| && passes[i]
    ensures forall k :: k in Fold(passes).launches ==>
      k < |passes| && passes[k] && forall j :: 0 <= j < k ==> !passes[j]
    decreases |passes|
  {
    if |passes| > 0 {
      var init := passes[..|passes| - 1];
      var last := |passes| - 1;
      LaunchesOnceOnFirstPass(init);
      assert forall j :: 0 <= j < last ==> init[j] == passes[j];
      if exists i :: 0 <= i < |passes| && passes[i] {
        var i :| 0 <= i < |passes| && passes[i];
        if i < last {
          assert init[i];
        }
      }
    }
  }

  /** Whether each raw chunk contains the marker. */
  function Markers(chunks: seq<Chunk>): (r: seq<bool>)
    ensures |r| == |chunks|
    ensures forall i :: 0 <= i < |chunks| ==> r[i] == HasMarker(chunks[i])
  {
    seq(|chunks|, i requires 0 <= i < |chunks| => HasMarker(chunks[i]))
  }

  /** The launch-test outcomes are exactly the marker outcomes. */
  lemma TestsAreMarkers(chunks: seq<Chunk>)
    ensures Tests(chunks) == Markers(chunks)
  {
    forall i | 0 <= i < |chunks|
      ensures Tests(chunks)[i] == Markers(chunks)[i]
    {
      LaunchTestSeesRawChunk(chunks[i]);
    }
  }

  /** Electron is started at most once, and, if any chunk contains the
      marker, exactly once: on the first such chunk. */
  lemma LaunchesOnceOnFirstMarker(chunks: seq<Chunk>)
    ensures |Run(chunks).launches| <= 1
    ensures Run(chunks).electronOpen <==> exists i :: 0 <= i < |chunks| && HasMarker(chunks[i])
    ensures forall k :: k in Run(chunks).launches ==>
      k < |chunks| && HasMarker(chunks[k]) && forall j :: 0 <= j < k ==> !HasMarker(chunks[j])
  {
    var m := Markers(chunks);
    assert Run(chunks) == Fold(m) by {
      RunFoldsTests(chunks);
      TestsAreMarkers(chunks);
    }
    LaunchesOnceOnFirstPass(m);
  }
}

/** The dev runner's console formatting: `repeat`, the trim of a chunk of
    child output, the indentation of its continuation lines, and `format`. */
module ConsoleFormat {
  import opened Options

  /** ANSI colour codes of the runner. */
  const Yellow: string := "\U{1B}[33m"
  const Blue: string := "\U{1B}[36m"
  const End: string := "\U{1B}[0m"

  /** `Array.prototype.join`: the parts with `sep` between neighbours. */
  function Join(parts: seq<string>, sep: string): string
    decreases |parts|
  {
    if |parts| == 0 then ""
    else if |parts| == 1 then parts[0]
    else parts[0] + sep + Join(parts[1..], sep)
  }

  /** Reference definition: `n` copies of `str` back to back. */
  function Copies(str: string, n: nat): string {
    if n == 0 then "" else str + Copies(str, n - 1)
  }

  lemma {:induction false} CopiesLength(str: string, n: nat)
    ensures |Copies(str, n)| == |str| * n
  {
    if n > 0 {
      CopiesLength(str, n - 1);
      assert |str| * n == |str| + |str| * (n - 1);
    }
  }

  /** Copies of a one-character string consist of that character only. */
  lemma {:induction false} CopiesOfChar(c: char, n: nat)
    ensures |Copies([c], n)| == n
    ensures forall i :: 0 <= i < n ==> Copies([c], n)[i] == c
  {
    if n > 0 {
      CopiesOfChar(c, n - 1);
    }
  }

  /** Joining `k + 1` empty strings places `sep` exactly `k` times. */
  lemma {:induction false} JoinOfEmpties(k: nat, sep: string)
    ensures Join(seq(k + 1, _ => ""), sep) == Copies(sep, k)
  {
    var parts := seq(k + 1, _ => "");
    if k > 0 {
      assert parts[1..] == seq(k, _ => "");
      JoinOfEmpties(k - 1, sep);
    }
  }

  /** `repeat(str, times)`: `new Array(times + 1).join(str)`. */
  function Repeat(str: string, times: nat): (r: string)
    ensures r == Copies(str, times)
    ensures |r| == |str| * times
    ensures times == 0 ==> r == ""
  {
    JoinOfEmpties(times, str);
    CopiesLength(str, times);
    Join(seq(times + 1, _ => ""), str)
  }

  /** The characters `String.prototype.trim` removes: ECMAScript white space
      (tab, vertical tab, form feed, space, no-break space, byte order mark
      and the space separators) and line terminators. */
  predicate IsWhiteSpace(c: char) {
    || '\t' <= c <= '\r'
    || c == ' ' || c == '\U{A0}' || c == '\U{1680}'
    || '\U{2000}' <= c <= '\U{200A}'
    || c == '\U{2028}' || c == '\U{2029}' || c == '\U{202F}' || c == '\U{205F}'
    || c == '\U{3000}' || c == '\U{FEFF}'
  }

  predicate AllWhiteSpace(t: string) {
    forall i :: 0 <= i < |t| ==> IsWhiteSpace(t[i])
  }

  /** Scanning forward from `i`: the index of the first character that is
      not white space, or `|s|`. */
  function SkipLeading(s: string, i: nat): (n: nat)
    requires i <= |s|
    ensures i <= n <= |s|
    ensures forall k :: i <= k < n ==> IsWhiteSpace(s[k])
    ensures n < |s| ==> !IsWhiteSpace(s[n])
    decreases |s| - i
  {
    if i < |s| && IsWhiteSpace(s[i]) then SkipLeading(s, i + 1) else i
  }

  /** Scanning backward from `j` down to `lo`: the index just past the last
      character that is not white space, or `lo`. */
  function SkipTrailing(s: string, lo: nat, j: nat): (n: nat)
    requires lo <= j <= |s|
    ensures lo <= n <= j
    ensures forall k :: n <= k < j ==> IsWhiteSpace(s[k])
    ensures n > lo ==> !IsWhiteSpace(s[n - 1])
    decreases j
  {
    if j > lo && IsWhiteSpace(s[j - 1]) then SkipTrailing(s, lo, j - 1) else j
  }

  /** `r` is the slice of `s` starting at `lo` and all of `s` around it is
      white space. */
  predicate TrimmedAt(s: string, r: string, lo: int) {
    && 0 <= lo && lo + |r| <= |s| && r == s[lo..lo + |r|]
    && (forall k :: 0 <= k < lo ==> IsWhiteSpace(s[k]))
    && (forall k :: lo + |r| <= k < |s| ==> IsWhiteSpace(s[k]))
  }

  /** `String.prototype.trim`: the slice of `s` left once the white space at
      both ends is gone, with no white space at either of its own ends. */
  function Trim(s: string): (r: string)
    ensures exists lo :: TrimmedAt(s, r, lo)
    ensures |r| > 0 ==> !IsWhiteSpace(r[0]) && !IsWhiteSpace(r[|r| - 1])
  {
    var lo := SkipLeading(s, 0);
    var hi := SkipTrailing(s, lo, |s|);
    assert TrimmedAt(s, s[lo..hi], lo);
    s[lo..hi]
  }

  /** `replace(/\n/g, '\n' + pad)`: every newline gains `pad` after it. */
  function Indent(t: string, pad: string): (r: string)
    ensures |t| > 0 ==> |r| > 0 && r[0] == t[0]
    ensures |t| > 0 && t[|t| - 1] != '\n' ==> |r| > 0 && r[|r| - 1] == t[|t| - 1]
  {
    if |t| == 0 then ""
    else if t[0] == '\n' then "\n" + pad + Indent(t[1..], pad)
    else [t[0]] + Indent(t[1..], pad)
  }

  /** Inverse of `Indent`: checks that every newline is followed by `pad` and
      removes it; None when some newline is not. */
  function Unindent(u: string, pad: string): Option<string>
    decreases |u|
  {
    if |u| == 0 then Some("")
    else if u[0] == '\n' then
      if 1 + |pad| <= |u| && u[1..1 + |pad|] == pad then
        match Unindent(u[1 + |pad|..], pad)
        case Some(rest) => Some("\n" + rest)
        case None => None
      else None
    else
      match Unindent(u[1..], pad)
      case Some(rest) => Some([u[0]] + rest)
      case None => None
  }

  /** Indentation inserts `pad` after each newline and changes nothing else:
      removing it again gives the original text back. */
  lemma {:induction false} IndentRoundTrip(t: string, pad: string)
    ensures Unindent(Indent(t, pad), pad) == Some(t)
  {
    if |t| > 0 {
      IndentRoundTrip(t[1..], pad);
      var u := Indent(t, pad);
      if t[0] == '\n' {
        assert u[1..1 + |pad|] == pad;
        assert u[1 + |pad|..] == Indent(t[1..], pad);
        assert t == "\n" + t[1..];
      } else {
        assert u[1..] == Indent(t[1..], pad);
        assert t == [t[0]] + t[1..];
      }
    }
  }

  /** Length of the prefix `color + command + END + "  "`. */
  function PrefixLength(command: string, color: string): nat {
    |color| + |command| + |End| + 2
  }

  /** Where the prefix, the body and the final newline sit in a formatted line. */
  lemma FramedParts(prefix: string, body: string)
    ensures var r := prefix + body + "\n";
      && r[..|prefix|] == prefix && r[|prefix|..|r| - 1] == body && r[|r| - 1] == '\n'
  {
  }

  /** A line ending in a space, then an indented body whose text does not end
      in white space, then a newline, has a single newline at its end. */
  lemma SingleFinalNewline(prefix: string, t: string, pad: string)
    requires |prefix| > 0 && prefix[|prefix| - 1] == ' '
    requires |t| > 0 ==> !IsWhiteSpace(t[|t| - 1])
    ensures var r := prefix + Indent(t, pad) + "\n"; r[|r| - 2] != '\n'
  {
  }

  /** `format(command, data, color)`. */
  function Format(command: string, data: string, color: string): (r: string)
    ensures |r| >= PrefixLength(command, color) + 1
    ensures r[..PrefixLength(command, color)] == color + command + End + "  "
    ensures r[|r| - 1] == '\n' && r[|r| - 2] != '\n'
    ensures Unindent(r[PrefixLength(command, color)..|r| - 1], Copies(" ", |command| + 2)) == Some(Trim(data))
  {
    var prefix := color + command + End + "  ";
    var t := Trim(data);
    var pad := Repeat(" ", |command| + 2);
    FramedParts(prefix, Indent(t, pad));
    SingleFinalNewline(prefix, t, pad);
    IndentRoundTrip(t, pad);
    prefix + Indent(t, pad) + "\n"
  }

  /** The body between the prefix and the final newline carries no white
      space at either end, and is empty exactly when `data` is all white
      space. */
  lemma FormatBodyIsTrimmed(command: string, data: string, color: string)
    ensures var r := Format(command, data, color);
      var body := r[PrefixLength(command, color)..|r| - 1];
      && (|body| == 0 <==> AllWhiteSpace(data))
      && (|body| > 0 ==> !IsWhiteSpace(body[0]) && !IsWhiteSpace(body[|body| - 1]))
  {
  }
}

/**
 * String helpers shared by the Python lambdas and the TypeScript client:
 * `sep.join(parts)` / `parts.join(sep)`, Python's `str.strip()`, JavaScript's
 * `String.prototype.trim()`, decimal rendering of a natural number and list
 * repetition.
 */
module Strings {

  /** Python's `str.isspace` and JavaScript's whitespace/line-terminator set differ slightly. */
  datatype Flavor = Python | JavaScript

  predicate IsSpace(c: char, f: Flavor) {
    || c == ' ' || c == '\t' || c == '\n' || c == '\r' || c == '\U{B}' || c == '\U{C}'
    || c == '\U{A0}' || c == '\U{1680}' || ('\U{2000}' <= c <= '\U{200A}')
    || c == '\U{2028}' || c == '\U{2029}' || c == '\U{202F}' || c == '\U{205F}' || c == '\U{3000}'
    || (f == Python && (('\U{1C}' <= c <= '\U{1F}') || c == '\U{85}'))
    || (f == JavaScript && c == '\U{FEFF}')
  }

  /** Number of leading whitespace characters. */
  function LeadingSpace(s: string, f: Flavor): (n: nat)
    ensures n <= |s|
    ensures forall k :: 0 <= k < n ==> IsSpace(s[k], f)
    ensures n < |s| ==> !IsSpace(s[n], f)
  {
    if s == [] || !IsSpace(s[0], f) then 0 else 1 + LeadingSpace(s[1..], f)
  }

  /** Number of trailing whitespace characters. */
  function TrailingSpace(s: string, f: Flavor): (n: nat)
    ensures n <= |s|
    ensures forall k :: |s| - n <= k < |s| ==> IsSpace(s[k], f)
    ensures n < |s| ==> !IsSpace(s[|s| - n - 1], f)
  {
    if s == [] || !IsSpace(s[|s| - 1], f) then 0 else 1 + TrailingSpace(s[..|s| - 1], f)
  }

  /**
   * Removes leading and trailing whitespace: the result is the slice of `s`
   * between the whitespace runs at either end, and it neither begins nor ends
   * with whitespace.
   */
  function TrimBoth(s: string, f: Flavor): (r: string)
    ensures |r| <= |s|
    ensures r == "" || (!IsSpace(r[0], f) && !IsSpace(r[|r| - 1], f))
    ensures r == "" <==> forall k :: 0 <= k < |s| ==> IsSpace(s[k], f)
  {
    var t := s[..|s| - TrailingSpace(s, f)];
    var lead := LeadingSpace(t, f);
    assert t == "" || !IsSpace(t[|t| - 1], f);
    assert t == [] ==> forall k :: 0 <= k < |s| ==> IsSpace(s[k], f);
    t[lead..]
  }

  /**
   * Trimming cuts a slice out of `s` and drops only whitespace; with the
   * ends of the result not being whitespace, this fixes the result.
   */
  lemma TrimBothSlice(s: string, f: Flavor)
    ensures exists a, b ::
      && 0 <= a <= b <= |s| && TrimBoth(s, f) == s[a..b]
      && forall k :: 0 <= k < a || b <= k < |s| ==> IsSpace(s[k], f)
  {
    var b := |s| - TrailingSpace(s, f);
    var t := s[..b];
    var lead := LeadingSpace(t, f);
    assert TrimBoth(s, f) == t[lead..] == s[lead..b];
    assert forall k :: 0 <= k < lead ==> s[k] == t[k];
  }

  /** Python's `str.strip()` with no argument. */
  function Strip(s: string): string {
    TrimBoth(s, Python)
  }

  /** JavaScript's `s.trim()`. */
  function Trim(s: string): string {
    TrimBoth(s, JavaScript)
  }

  /** `sep.join(parts)`: the parts with `sep` between neighbours. */
  function Join(sep: string, parts: seq<string>): string {
    if |parts| == 0 then ""
    else if |parts| == 1 then parts[0]
    else parts[0] + sep + Join(sep, parts[1..])
  }

  /** What `text += w + ' '` accumulates over the words `ws`. */
  function SpaceTerminated(ws: seq<string>): string {
    if ws == [] then "" else SpaceTerminated(ws[..|ws| - 1]) + ws[|ws| - 1] + " "
  }

  lemma SpaceTerminatedSnoc(ws: seq<string>, w: string)
    ensures SpaceTerminated(ws + [w]) == SpaceTerminated(ws) + w + " "
  {
    assert (ws + [w])[..|ws|] == ws;
  }

  lemma ConcatAssoc<T>(a: seq<T>, b: seq<T>, c: seq<T>)
    ensures a + b + c == a + (b + c)
  {
  }

  lemma SpaceTerminatedExtend(ws: seq<string>, more: seq<string>, w: string)
    ensures SpaceTerminated(ws + more) + (w + " ") == SpaceTerminated(ws + (more + [w]))
  {
    SpaceTerminatedSnoc(ws + more, w);
    assert ws + more + [w] == ws + (more + [w]);
  }

  /** Python's `[x] * n`. */
  function Repeat(x: string, n: nat): (r: seq<string>)
    ensures |r| == n
    ensures forall k :: 0 <= k < n ==> r[k] == x
  {
    if n == 0 then [] else Repeat(x, n - 1) + [x]
  }

  function DigitChar(d: nat): char
    requires d < 10
  {
    "0123456789"[d]
  }

  /** `str(n)` / `${n}` for a natural number. */
  function NatToString(n: nat): (r: string)
    ensures |r| >= 1
    ensures forall k :: 0 <= k < |r| ==> '0' <= r[k] <= '9'
  {
    if n < 10 then [DigitChar(n)] else NatToString(n / 10) + [DigitChar(n % 10)]
  }

  /** `t` starts with `prefix`. */
  predicate StartsWith(t: string, prefix: string) {
    |prefix| <= |t| && t[..|prefix|] == prefix
  }

  lemma {:induction false} JoinSnoc(sep: string, parts: seq<string>, p: string)
    requires parts != []
    ensures Join(sep, parts + [p]) == Join(sep, parts) + sep + p
  {
    if |parts| == 1 {
      assert parts + [p] == [parts[0], p];
    } else {
      assert (parts + [p])[1..] == parts[1..] + [p];
      JoinSnoc(sep, parts[1..], p);
    }
  }

  /** The accumulated `w + ' '` string is the space-joined words plus one trailing space. */
  lemma {:induction false} SpaceTerminatedIsJoin(ws: seq<string>)
    ensures SpaceTerminated(ws) == if ws == [] then "" else Join(" ", ws) + " "
  {
    if ws != [] {
      var init := ws[..|ws| - 1];
      SpaceTerminatedIsJoin(init);
      if init != [] {
        JoinSnoc(" ", init, ws[|ws| - 1]);
        assert init + [ws[|ws| - 1]] == ws;
      } else {
        assert ws == [ws[0]];
      }
    }
  }

  lemma StripDropsTrailingSpace(s: string)
    ensures Strip(s + " ") == Strip(s)
  {
    var t := s + " ";
    assert IsSpace(t[|t| - 1], Python);
    assert t[..|t| - 1] == s;
    assert TrailingSpace(t, Python) == 1 + TrailingSpace(s, Python);
    assert t[..|t| - TrailingSpace(t, Python)] == s[..|s| - TrailingSpace(s, Python)];
  }

  /** Stripping the `w + ' '` accumulation is stripping the words joined by single spaces. */
  lemma StripSpaceTerminated(ws: seq<string>)
    ensures Strip(SpaceTerminated(ws)) == Strip(Join(" ", ws))
  {
    SpaceTerminatedIsJoin(ws);
    if ws != [] {
      StripDropsTrailingSpace(Join(" ", ws));
    }
  }

  /** The first line of a join is a prefix of the joined text. */
  lemma JoinStartsWithFirst(sep: string, parts: seq<string>)
    requires parts != []
    ensures StartsWith(Join(sep, parts), parts[0])
  {
  }
}

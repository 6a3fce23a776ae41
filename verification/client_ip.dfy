/**
  `getClientIp` (src/index.ts): the caller identity handed to the admission
  limiter.  The first comma-separated entry of `x-forwarded-for`, trimmed;
  otherwise the connection's peer address; otherwise a placeholder (in the
  source, the text of a random number, here an opaque argument).

  JavaScript truthiness is written out: an absent header (`null`) and the
  empty string are falsy, and so are a missing `conn`, a missing
  `remoteAddress` and an empty `remoteAddress`.
 */
module ClientIp {
  import opened Wrappers

  /** Bun's connection object, of which only `remoteAddress` is read. */
  datatype Conn = Conn(remoteAddress: Option<string>)

  /** The characters `String.prototype.trim` removes: the WhiteSpace and
      LineTerminator code points of ECMAScript (section 12.2 and 12.3 of
      ECMA-262), that is, tab, line feed, vertical tab, form feed, carriage
      return, the Unicode space separators (category Zs), the byte order
      mark, and the line and paragraph separators. */
  predicate IsTrimmable(c: char)
  {
    var n := c as int;
    || n == 0x09 || n == 0x0A || n == 0x0B || n == 0x0C || n == 0x0D
    || n == 0x20 || n == 0xA0 || n == 0x1680 || 0x2000 <= n <= 0x200A
    || n == 0x2028 || n == 0x2029 || n == 0x202F || n == 0x205F
    || n == 0x3000 || n == 0xFEFF
  }

  /** `s.split(",")[0]`: the text before the first comma, or all of `s`
      when it has none. */
  function FirstSegment(s: string): (r: string)
    ensures r <= s
    ensures ',' !in r
    ensures |r| < |s| ==> s[|r|] == ','
  {
    if |s| == 0 || s[0] == ',' then ""
    else [s[0]] + FirstSegment(s[1..])
  }

  /** The first index from `i` on that is not trimmable, or `|s|`. */
  function SkipLeading(s: string, i: nat): (r: nat)
    requires i <= |s|
    ensures i <= r <= |s|
    ensures forall k :: i <= k < r ==> IsTrimmable(s[k])
    ensures r == |s| || !IsTrimmable(s[r])
    decreases |s| - i
  {
    if i < |s| && IsTrimmable(s[i]) then SkipLeading(s, i + 1) else i
  }

  /** The end of `s[lo..j]` once its trailing trimmable characters are dropped. */
  function SkipTrailing(s: string, lo: nat, j: nat): (r: nat)
    requires lo <= j <= |s|
    ensures lo <= r <= j
    ensures forall k :: r <= k < j ==> IsTrimmable(s[k])
    ensures r == lo || !IsTrimmable(s[r - 1])
  {
    if j > lo && IsTrimmable(s[j - 1]) then SkipTrailing(s, lo, j - 1) else j
  }

  /** `r` is the slice of `s` starting at `i`, with only trimmable
      characters outside it and none at either of its ends. */
  ghost predicate TrimmedAt(s: string, r: string, i: int)
  {
    && 0 <= i && i + |r| <= |s| && r == s[i..i + |r|]
    && (forall k :: 0 <= k < i ==> IsTrimmable(s[k]))
    && (forall k :: i + |r| <= k < |s| ==> IsTrimmable(s[k]))
    && (|r| == 0 || (!IsTrimmable(r[0]) && !IsTrimmable(r[|r| - 1])))
  }

  /** `r` is what `trim` leaves of `s`. */
  ghost predicate IsTrimOf(s: string, r: string)
  {
    exists i :: TrimmedAt(s, r, i)
  }

  /** `String.prototype.trim`. */
  function Trim(s: string): (r: string)
    ensures IsTrimOf(s, r)
  {
    var i := SkipLeading(s, 0);
    var j := SkipTrailing(s, i, |s|);
    assert TrimmedAt(s, s[i..j], i);
    s[i..j]
  }

  /** The header yields an identity: it is present and non-empty, and its
      first comma-separated segment is non-empty, i.e. it does not start
      with a comma. */
  predicate HeaderYields(forwardedFor: Option<string>)
  {
    forwardedFor.Some? && |forwardedFor.value| > 0 && forwardedFor.value[0] != ','
  }

  /** The connection yields an identity: `conn && conn.remoteAddress` is truthy. */
  predicate PeerYields(conn: Option<Conn>)
  {
    conn.Some? && conn.value.remoteAddress.Some? && |conn.value.remoteAddress.value| > 0
  }

  /** `getClientIp`, with the header value and the connection as inputs and
      `placeholder` standing for `${Math.random()}`. */
  function GetClientIp(forwardedFor: Option<string>, conn: Option<Conn>, placeholder: string): (r: string)
    ensures HeaderYields(forwardedFor) ==> IsTrimOf(FirstSegment(forwardedFor.value), r) && ',' !in r
    ensures !HeaderYields(forwardedFor) && PeerYields(conn) ==> r == conn.value.remoteAddress.value
    ensures !HeaderYields(forwardedFor) && !PeerYields(conn) ==> r == placeholder
  {
    if forwardedFor.Some? && forwardedFor.value != "" && FirstSegment(forwardedFor.value) != "" then
      var ip := FirstSegment(forwardedFor.value);
      Trim(ip)
    else if conn.Some? && conn.value.remoteAddress.Some? && conn.value.remoteAddress.value != "" then
      conn.value.remoteAddress.value
    else
      placeholder
  }

  // ---------------------------------------------------------------------
  // Properties

  /** `IsTrimOf` pins the result down: a string has only one trim. */
  lemma TrimIsUnique(s: string, r1: string, r2: string)
    requires IsTrimOf(s, r1) && IsTrimOf(s, r2)
    ensures r1 == r2
  {
    var i1 :| TrimmedAt(s, r1, i1);
    var i2 :| TrimmedAt(s, r2, i2);
    if |r1| > 0 && |r2| > 0 {
      assert s[i1] == r1[0] && s[i2] == r2[0];
      var j1, j2 := i1 + |r1|, i2 + |r2|;
      assert s[j1 - 1] == r1[|r1| - 1] && s[j2 - 1] == r2[|r2| - 1];
    }
  }

  /** A string trims to nothing exactly when all its characters are trimmable. */
  lemma TrimOfBlankIsEmpty(s: string)
    ensures (forall k :: 0 <= k < |s| ==> IsTrimmable(s[k])) <==> Trim(s) == ""
  {
    var r := Trim(s);
    var i :| TrimmedAt(s, r, i);
    if |r| > 0 {
      assert s[i] == r[0];
    }
  }

  /** The header condition of the source, `forwardedFor` truthy and
      `split(",")[0]` truthy, holds exactly when the header does not start
      with a comma. */
  lemma HeaderYieldsIff(forwardedFor: Option<string>)
    ensures HeaderYields(forwardedFor) <==>
              forwardedFor.Some? && forwardedFor.value != "" && FirstSegment(forwardedFor.value) != ""
  {
  }

  /** When the header yields an identity, the connection and the
      placeholder are never consulted. */
  lemma HeaderTakesPrecedence(forwardedFor: Option<string>, c1: Option<Conn>, c2: Option<Conn>, p1: string, p2: string)
    requires HeaderYields(forwardedFor)
    ensures GetClientIp(forwardedFor, c1, p1) == GetClientIp(forwardedFor, c2, p2)
  {
    HeaderYieldsIff(forwardedFor);
  }

  /** A first segment of blanks still wins: the result is the empty string,
      not the peer address. */
  lemma BlankSegmentGivesEmpty(forwardedFor: Option<string>, conn: Option<Conn>, placeholder: string)
    requires HeaderYields(forwardedFor)
    requires var seg := FirstSegment(forwardedFor.value);
             forall k :: 0 <= k < |seg| ==> IsTrimmable(seg[k])
    ensures GetClientIp(forwardedFor, conn, placeholder) == ""
  {
    HeaderYieldsIff(forwardedFor);
    TrimOfBlankIsEmpty(FirstSegment(forwardedFor.value));
  }

  /** The placeholder is the answer exactly when neither the header nor
      the connection yields an identity: only then does the result follow
      whatever placeholder is supplied. */
  lemma PlaceholderOnlyAsLastResort(forwardedFor: Option<string>, conn: Option<Conn>)
    ensures (!HeaderYields(forwardedFor) && !PeerYields(conn)) <==>
              forall p :: GetClientIp(forwardedFor, conn, p) == p
  {
    if HeaderYields(forwardedFor) || PeerYields(conn) {
      HeaderYieldsIff(forwardedFor);
      if GetClientIp(forwardedFor, conn, "a") == "a" {
        assert GetClientIp(forwardedFor, conn, "b") == "a";
      }
    }
  }

  /** `split(",")[0]` is the text up to the first comma. */
  lemma FirstSegmentAt(s: string, n: nat)
    requires n <= |s| && ',' !in s[..n]
    requires n == |s| || s[n] == ','
    ensures FirstSegment(s) == s[..n]
  {
    var r := FirstSegment(s);
    assert r == s[..|r|];
  }

  /** Trimming drops the blanks around an address. */
  lemma ExampleTrim()
    ensures Trim(" 1.2.3.4 ") == "1.2.3.4"
  {
    var s, r := " 1.2.3.4 ", "1.2.3.4";
    assert r == s[1..8];
    assert IsTrimmable(s[0]) && IsTrimmable(s[8]);
    assert !IsTrimmable(r[0]) && !IsTrimmable(r[6]);
    assert TrimmedAt(s, r, 1);
    TrimIsUnique(s, Trim(s), r);
  }

  /** Only the first entry of a forwarding chain is used, trimmed. */
  lemma ExampleFirstOfChain(placeholder: string)
    ensures GetClientIp(Some(" 1.2.3.4 ,5.6.7.8"), None, placeholder) == "1.2.3.4"
  {
    var h := " 1.2.3.4 ,5.6.7.8";
    assert h[..9] == " 1.2.3.4 ";
    FirstSegmentAt(h, 9);
    ExampleTrim();
  }

  /** A header starting with a comma falls through to the peer address. */
  lemma ExampleLeadingComma(placeholder: string)
    ensures GetClientIp(Some(",1.2.3.4"), Some(Conn(Some("9.9.9.9"))), placeholder) == "9.9.9.9"
  {
  }

  /** A blank first segment yields the empty string, not the peer address. */
  lemma ExampleBlankSegment(placeholder: string)
    ensures GetClientIp(Some("  ,1.2.3.4"), Some(Conn(Some("9.9.9.9"))), placeholder) == ""
  {
    FirstSegmentAt("  ,1.2.3.4", 2);
    BlankSegmentGivesEmpty(Some("  ,1.2.3.4"), Some(Conn(Some("9.9.9.9"))), placeholder);
  }

  /** An empty header counts as absent; an empty peer address too. */
  lemma ExampleEmptySources(placeholder: string)
    ensures GetClientIp(Some(""), Some(Conn(Some("9.9.9.9"))), placeholder) == "9.9.9.9"
    ensures GetClientIp(Some(""), Some(Conn(Some(""))), placeholder) == placeholder
    ensures GetClientIp(None, None, placeholder) == placeholder
  {
  }
}

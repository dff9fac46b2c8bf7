/** Characters, white space and byte lengths of text, and the blocks text is cut into. */
module CharText {
  import opened Options

  /** Body text under a heading path; code and plain text have no path. */
  datatype Block = Block(path: Option<string>, body: string)

  /** Unicode `White_Space`, as `char::is_whitespace`. */
  predicate IsWhitespace(c: char) {
    var n := c as int;
    || 9 <= n <= 13 || n == 32 || n == 0x85 || n == 0xA0 || n == 0x1680
    || 0x2000 <= n <= 0x200A || n == 0x2028 || n == 0x2029 || n == 0x202F || n == 0x205F || n == 0x3000
  }

  function TrimStart(s: string): (r: string)
    ensures r != "" ==> !IsWhitespace(r[0])
  {
    if s != "" && IsWhitespace(s[0]) then TrimStart(s[1..]) else s
  }

  function TrimEnd(s: string): (r: string)
    ensures r != "" ==> !IsWhitespace(r[|r| - 1])
    ensures r <= s
  {
    if s != "" && IsWhitespace(s[|s| - 1]) then TrimEnd(s[..|s| - 1]) else s
  }

  function Trim(s: string): string {
    TrimEnd(TrimStart(s))
  }

  predicate Blank(s: string) {
    forall i | 0 <= i < |s| :: IsWhitespace(s[i])
  }

  lemma TrimStartBlank(s: string)
    ensures TrimStart(s) == "" <==> Blank(s)
  {
    if s != "" && IsWhitespace(s[0]) {
      TrimStartBlank(s[1..]);
      assert s == [s[0]] + s[1..];
    }
  }

  /** `trim().is_empty()` says that all characters are white space. */
  lemma TrimBlank(s: string)
    ensures Trim(s) == "" <==> Blank(s)
  {
    TrimStartBlank(s);
    var t := TrimStart(s);
    if t != "" {
      TrimEndKeepsHead(t);
    }
  }

  /** Trimming cuts the white space at both ends and nothing else. */
  lemma TrimForm(s: string) returns (from: nat, to: nat)
    ensures from <= to <= |s| && Trim(s) == s[from..to] && Blank(s[..from]) && Blank(s[to..])
    ensures from < to ==> !IsWhitespace(s[from]) && !IsWhitespace(s[to - 1])
  {
    from := TrimStartForm(s);
    var n := TrimEndForm(s[from..]);
    to := from + n;
    assert forall i | to <= i < |s| :: s[i] == s[from..][n..][i - to];
    assert s[from..][..n] == s[from..to];
  }

  lemma TrimStartForm(s: string) returns (from: nat)
    ensures from <= |s| && TrimStart(s) == s[from..] && Blank(s[..from])
  {
    from := 0;
    if s != "" && IsWhitespace(s[0]) {
      var n := TrimStartForm(s[1..]);
      from := n + 1;
      assert forall i | 0 < i < from :: s[i] == s[1..][..n][i - 1];
    }
  }

  lemma TrimEndForm(s: string) returns (to: nat)
    ensures to <= |s| && TrimEnd(s) == s[..to] && Blank(s[to..])
  {
    to := |s|;
    if s != "" && IsWhitespace(s[|s| - 1]) {
      to := TrimEndForm(s[..|s| - 1]);
      assert forall i | to <= i < |s| - 1 :: s[i] == s[..|s| - 1][to..][i - to];
    }
  }

  lemma TrimEndKeepsHead(t: string)
    requires t != "" && !IsWhitespace(t[0])
    ensures TrimEnd(t) != ""
  {
    if IsWhitespace(t[|t| - 1]) {
      TrimEndKeepsHead(t[..|t| - 1]);
    }
  }

  function CharBytes(c: char): nat {
    var n := c as int;
    if n < 0x80 then 1 else if n < 0x800 then 2 else if n < 0x1_0000 then 3 else 4
  }

  /** `str::len`: bytes, not characters. */
  function ByteLen(s: string): (n: nat)
    ensures |s| <= n <= 4 * |s|
  {
    if s == "" then 0 else CharBytes(s[0]) + ByteLen(s[1..])
  }

  lemma ByteLenConcat(a: string, b: string)
    ensures ByteLen(a + b) == ByteLen(a) + ByteLen(b)
  {
    if a == "" {
      assert a + b == b;
    } else {
      assert (a + b)[1..] == a[1..] + b;
      ByteLenConcat(a[1..], b);
    }
  }

  lemma ByteLenGlued(a: string, b: string)
    ensures ByteLen(a + "\n\n" + b) == ByteLen(a) + 2 + ByteLen(b)
  {
    ByteLenConcat(a, "\n\n");
    ByteLenConcat(a + "\n\n", b);
    assert "\n\n"[1..] == "\n";
  }
}

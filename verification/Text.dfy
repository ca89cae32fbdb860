/** String helpers that several components share, after Go's `strings` package. */
module Text {

  datatype Option<+T> = None | Some(value: T)

  /** The code points Go's unicode.IsSpace accepts. */
  predicate IsSpace(c: char) {
    || '\t' <= c <= '\r' || c == ' ' || c == '\U{85}' || c == '\U{a0}' || c == '\U{1680}'
    || '\U{2000}' <= c <= '\U{200a}' || c == '\U{2028}' || c == '\U{2029}' || c == '\U{202f}'
    || c == '\U{205f}' || c == '\U{3000}'
  }

  function TrimLeft(s: string): (t: string)
    ensures t != "" ==> !IsSpace(t[0])
    ensures |t| <= |s| && t == s[|s| - |t|..]
  {
    if s != "" && IsSpace(s[0]) then TrimLeft(s[1..]) else s
  }

  function TrimRight(s: string): (t: string)
    ensures t != "" ==> !IsSpace(t[|t| - 1])
    ensures t <= s
  {
    if s != "" && IsSpace(s[|s| - 1]) then TrimRight(s[..|s| - 1]) else s
  }

  function TrimSpace(s: string): string {
    TrimRight(TrimLeft(s))
  }

  /** A string without outer white space is left alone. */
  lemma TrimSpaceKeeps(s: string)
    requires s != "" ==> !IsSpace(s[0]) && !IsSpace(s[|s| - 1])
    ensures TrimSpace(s) == s
  {
  }

  /** Trimming is done once and for all. */
  lemma TrimTwice(s: string)
    ensures TrimSpace(TrimSpace(s)) == TrimSpace(s)
  {
    TrimSpaceKeeps(TrimSpace(s));
  }

  lemma TrimAfterSpace(p: string)
    ensures TrimSpace(" " + p) == TrimSpace(p)
  {
    assert (" " + p)[1..] == p;
  }

  function TrimPrefix(s: string, prefix: string): string {
    if prefix <= s then s[|prefix|..] else s
  }

  /** Decimal notation, as `%d` writes it. */
  function Decimal(n: nat): string {
    (if n < 10 then "" else Decimal(n / 10)) + ["0123456789"[n % 10]]
  }

  /** The first value that is not blank, trimmed; "" when there is none. */
  function FirstNonEmpty(values: seq<string>): string {
    if values == [] then ""
    else if TrimSpace(values[0]) != "" then TrimSpace(values[0])
    else FirstNonEmpty(values[1..])
  }

  /** Byte order of Go strings and of SQLite's default collation. */
  predicate Less(a: string, b: string) {
    b != "" && (a == "" || a[0] < b[0] || (a[0] == b[0] && Less(a[1..], b[1..])))
  }

  lemma {:induction false} LessIrreflexive(a: string)
    ensures !Less(a, a)
  {
    if a != "" { LessIrreflexive(a[1..]); }
  }

  lemma {:induction false} LessTotal(a: string, b: string)
    ensures a == b || Less(a, b) || Less(b, a)
  {
    if a != "" && b != "" && a[0] == b[0] {
      LessTotal(a[1..], b[1..]);
      assert a == [a[0]] + a[1..] && b == [b[0]] + b[1..];
    }
  }

  lemma {:induction false} LessTransitive(a: string, b: string, c: string)
    requires Less(a, b) && Less(b, c)
    ensures Less(a, c)
  {
    if a != "" && a[0] == b[0] == c[0] {
      LessTransitive(a[1..], b[1..], c[1..]);
    }
  }
}

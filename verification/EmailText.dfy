// The e-mail text rules of auth.service.ts and users.repository.ts: trimming and
// lower-casing before lookups, and the shape check, on ASCII text.
module EmailText {

  /** Blank, tab, line feed, vertical tab, form feed, carriage return. */
  predicate IsSpace(c: char) {
    c == ' ' || '\t' <= c <= '\r'
  }

  function LowerChar(c: char): (r: char)
    ensures IsSpace(r) <==> IsSpace(c)
  {
    if 'A' <= c <= 'Z' then (c as int + 32) as char else c
  }

  function Lower(s: string): (r: string)
    ensures |r| == |s|
    ensures forall i :: 0 <= i < |s| ==> r[i] == LowerChar(s[i])
  {
    seq(|s|, i requires 0 <= i < |s| => LowerChar(s[i]))
  }

  function TrimStart(s: string): (r: string)
    ensures r != [] ==> !IsSpace(r[0])
  {
    if s != [] && IsSpace(s[0]) then TrimStart(s[1..]) else s
  }

  function TrimEnd(s: string): (r: string)
    ensures r <= s
    ensures r != [] ==> !IsSpace(r[|r| - 1])
  {
    if s != [] && IsSpace(s[|s| - 1]) then TrimEnd(s[..|s| - 1]) else s
  }

  /** `email.trim().toLowerCase()` */
  function Normalize(email: string): string {
    Lower(TrimEnd(TrimStart(email)))
  }

  /** No white space at either end. */
  predicate Trimmed(s: string) {
    s != [] ==> !IsSpace(s[0]) && !IsSpace(s[|s| - 1])
  }

  lemma NormalizeTrimmed(email: string)
    ensures Trimmed(Normalize(email))
  {
    var t := TrimStart(email);
    var u := TrimEnd(t);
    assert u <= t;
    if u != [] {
      assert u[0] == t[0];
    }
  }

  /** Looking a stored (already normalized) address up again uses the same key, and the
      lower-casing done by the database index agrees with it. */
  lemma NormalizeStable(email: string)
    ensures Normalize(Normalize(email)) == Normalize(email)
    ensures Lower(Normalize(email)) == Normalize(email)
  {
    var n := Normalize(email);
    NormalizeTrimmed(email);
    assert TrimStart(n) == n;
    assert TrimEnd(n) == n;
    assert Lower(n) == n;
  }

  /** The check /^[^\s@]+@[^\s@]+\.[^\s@]+$/ of auth.service.ts. */
  predicate ValidEmail(s: string) {
    exists at, dot ::
      0 < at && at + 1 < dot < |s| - 1 && s[at] == '@' && s[dot] == '.' &&
      forall i :: 0 <= i < |s| ==> !IsSpace(s[i]) && (s[i] == '@' <==> i == at)
  }
}

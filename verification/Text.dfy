/** Strings the protocol builds and compares: identifiers, decimal numbers, key IDs, audience keys, ordering. */
module Text {
  predicate IsLowerAlnum(c: char) {
    'a' <= c <= 'z' || '0' <= c <= '9'
  }

  predicate IsIdentifierChar(c: char) {
    IsLowerAlnum(c) || c in "._@/-"
  }

  /** 1 to 128 characters, alphanumeric at both ends. */
  predicate IsIdentifier(s: string) {
    && 1 <= |s| <= 128
    && IsLowerAlnum(s[0])
    && IsLowerAlnum(s[|s| - 1])
    && forall i :: 0 <= i < |s| ==> IsIdentifierChar(s[i])
  }

  predicate IsHex64(s: string) {
    |s| == 64 && forall i :: 0 <= i < |s| ==> s[i] in "0123456789abcdef"
  }

  function Digit(d: nat): (c: char)
    requires d < 10
    ensures '0' <= c <= '9'
  {
    "0123456789"[d]
  }

  lemma DigitInjective(d: nat, e: nat)
    requires d < 10 && e < 10 && Digit(d) == Digit(e)
    ensures d == e
  {
    var digits := "0123456789";
    assert digits[0] == '0' && digits[1] == '1' && digits[2] == '2' && digits[3] == '3' && digits[4] == '4';
    assert digits[5] == '5' && digits[6] == '6' && digits[7] == '7' && digits[8] == '8' && digits[9] == '9';
  }

  /** Base-ten rendering without leading zeros, as an f-string prints an integer. */
  function Decimal(n: nat): (s: string)
    ensures |s| >= 1
    ensures forall i :: 0 <= i < |s| ==> '0' <= s[i] <= '9'
  {
    if n < 10 then [Digit(n)] else Decimal(n / 10) + [Digit(n % 10)]
  }

  lemma {:induction false} DecimalInjective(m: nat, n: nat)
    requires Decimal(m) == Decimal(n)
    ensures m == n
  {
    var s := Decimal(m);
    var x, y := m % 10, n % 10;
    assert s[|s| - 1] == Digit(x) == Digit(y);
    DigitInjective(x, y);
    if m >= 10 && n >= 10 {
      assert s[..|s| - 1] == Decimal(m / 10) == Decimal(n / 10);
      DecimalInjective(m / 10, n / 10);
    }
  }

  /** A name followed by a separator and a part free of that separator. */
  function Join(name: string, separator: char, last: string): string {
    name + [separator] + last
  }

  /** The last separator of a joined string is the one Join wrote, so both parts can be read back. */
  lemma JoinInjective(a: string, x: string, b: string, y: string, separator: char)
    requires separator !in x && separator !in y
    requires Join(a, separator, x) == Join(b, separator, y)
    ensures a == b && x == y
  {
    var s := Join(a, separator, x);
    assert s[|a|] == separator && s[|b|] == separator;
    assert forall i :: |a| < i < |s| ==> s[i] == x[i - |a| - 1];
    assert forall i :: |b| < i < |s| ==> s[i] == y[i - |b| - 1];
    assert |a| == |b|;
    assert s[..|a|] == a && s[..|b|] == b;
    assert s[|a| + 1..] == x && s[|b| + 1..] == y;
  }

  /** The successor key ID: agent, purpose tag and epoch joined by slashes. */
  function KeyId(agent: string, tag: string, epoch: nat): string {
    Join(Join(agent, '/', tag), '/', Decimal(epoch))
  }

  /** Agent IDs may contain slashes themselves, yet a key ID names one agent, one purpose and one epoch. */
  lemma KeyIdInjective(agent: string, tag: string, epoch: nat, agent': string, tag': string, epoch': nat)
    requires '/' !in tag && '/' !in tag'
    requires KeyId(agent, tag, epoch) == KeyId(agent', tag', epoch')
    ensures agent == agent' && tag == tag' && epoch == epoch'
  {
    JoinInjective(Join(agent, '/', tag), Decimal(epoch), Join(agent', '/', tag'), Decimal(epoch'), '/');
    JoinInjective(agent, tag, agent', tag', '/');
    DecimalInjective(epoch, epoch');
  }

  /** The text under which a context files an audience epoch. */
  function AudienceText(kind: string, id: string, epoch: nat): string {
    Join(Join(kind, ':', id), ':', Decimal(epoch))
  }

  lemma AudienceTextInjective(kind: string, id: string, epoch: nat, kind': string, id': string, epoch': nat)
    requires IsIdentifier(id) && IsIdentifier(id')
    requires AudienceText(kind, id, epoch) == AudienceText(kind', id', epoch')
    ensures kind == kind' && id == id' && epoch == epoch'
  {
    JoinInjective(Join(kind, ':', id), Decimal(epoch), Join(kind', ':', id'), Decimal(epoch'), ':');
    JoinInjective(kind, id, kind', id', ':');
    DecimalInjective(epoch, epoch');
  }

  /** Code-point order, as Python compares strings. */
  predicate Leq(a: string, b: string) {
    a == [] || (b != [] && (a[0] < b[0] || (a[0] == b[0] && Leq(a[1..], b[1..]))))
  }

  lemma {:induction false} LeqReflexive(a: string)
    ensures Leq(a, a)
  {
    if a != [] {
      LeqReflexive(a[1..]);
    }
  }

  lemma {:induction false} LeqTotal(a: string, b: string)
    ensures Leq(a, b) || Leq(b, a)
  {
    if a != [] && b != [] {
      LeqTotal(a[1..], b[1..]);
    }
  }

  lemma {:induction false} LeqAntisymmetric(a: string, b: string)
    requires Leq(a, b) && Leq(b, a)
    ensures a == b
  {
    if a != [] && b != [] {
      LeqAntisymmetric(a[1..], b[1..]);
      assert a == [a[0]] + a[1..] && b == [b[0]] + b[1..];
    }
  }

  lemma {:induction false} LeqTransitive(a: string, b: string, c: string)
    requires Leq(a, b) && Leq(b, c)
    ensures Leq(a, c)
  {
    if a != [] && a[0] == b[0] == c[0] {
      LeqTransitive(a[1..], b[1..], c[1..]);
    }
  }
}

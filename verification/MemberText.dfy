/** Connection names as stored text: decimal user id, colon, channel name; and lists of ids joined by commas. */
module MemberText {
  import opened Ids

  predicate IsDigit(c: char) { '0' <= c <= '9' }

  function Digit(d: nat): char
    requires d < 10
  {
    "0123456789"[d]
  }

  function Value(c: char): nat
    requires IsDigit(c)
  {
    c as int - '0' as int
  }

  predicate AllDigits(s: string) { forall i :: 0 <= i < |s| ==> IsDigit(s[i]) }

  /** An integer as formatted in text. */
  function Decimal(n: nat): (s: string)
    ensures s != "" && AllDigits(s)
  {
    if n < 10 then [Digit(n)] else Decimal(n / 10) + [Digit(n % 10)]
  }

  /** An integer read back from text. */
  function Number(s: string): nat
    requires AllDigits(s)
  {
    if s == "" then 0 else 10 * Number(s[..|s| - 1]) + Value(s[|s| - 1])
  }

  lemma DigitValue(d: nat)
    requires d < 10
    ensures Value(Digit(d)) == d
  {
  }

  lemma {:induction false} NumberOfDecimal(n: nat)
    ensures Number(Decimal(n)) == n
  {
    DigitValue(n % 10);
    if n >= 10 {
      NumberOfDecimal(n / 10);
      assert Decimal(n)[..|Decimal(n)| - 1] == Decimal(n / 10);
    } else {
      assert Decimal(n)[..0] == "";
    }
  }

  /** The stored name of one connection of one user. */
  function Member(user: nat, channel: string): string { Decimal(user) + ":" + channel }

  ghost predicate IsMember(m: string) { exists u, c :: m == Member(u, c) }

  /** Length of the leading run of digits. */
  function DigitRun(s: string): (n: nat)
    ensures n <= |s|
  {
    if s != "" && IsDigit(s[0]) then 1 + DigitRun(s[1..]) else 0
  }

  /** The script's pattern: one or more leading digits followed by a colon. */
  function MatchedUser(m: string): Option<string> {
    var n := DigitRun(m);
    if 0 < n < |m| && m[n] == ':' then Some(m[..n]) else None
  }

  /** The text before the first colon. */
  function BeforeColon(m: string): string {
    if m == "" || m[0] == ':' then "" else [m[0]] + BeforeColon(m[1..])
  }

  lemma {:induction false} DigitRunOf(digits: string, rest: string)
    requires AllDigits(digits) && rest != "" && rest[0] == ':'
    ensures DigitRun(digits + rest) == |digits|
    ensures BeforeColon(digits + rest) == digits
  {
    if digits == "" {
      assert digits + rest == rest;
    } else {
      assert (digits + rest)[1..] == digits[1..] + rest;
      DigitRunOf(digits[1..], rest);
    }
  }

  /** Script pattern and colon split read the same user text from every stored name. */
  lemma ReadUser(u: nat, c: string)
    ensures MatchedUser(Member(u, c)) == Some(Decimal(u))
    ensures BeforeColon(Member(u, c)) == Decimal(u)
  {
    var rest := ":" + c;
    assert Member(u, c) == Decimal(u) + rest;
    DigitRunOf(Decimal(u), rest);
  }

  /** The user a stored name belongs to. */
  function Owner(m: string): nat {
    if AllDigits(BeforeColon(m)) then Number(BeforeColon(m)) else 0
  }

  lemma OwnerOfMember(u: nat, c: string)
    ensures Owner(Member(u, c)) == u
  {
    ReadUser(u, c);
    NumberOfDecimal(u);
  }

  lemma OwnerText(m: string)
    requires IsMember(m)
    ensures MatchedUser(m) == Some(Decimal(Owner(m)))
    ensures BeforeColon(m) == Decimal(Owner(m))
  {
    var u, c :| m == Member(u, c);
    ReadUser(u, c);
    OwnerOfMember(u, c);
  }

  lemma DecimalInjective(a: nat, b: nat)
    requires Decimal(a) == Decimal(b)
    ensures a == b
  {
    NumberOfDecimal(a);
    NumberOfDecimal(b);
  }

  /** Different connections have different names. */
  lemma MemberInjective(u: nat, c: string, v: nat, d: string)
    requires Member(u, c) == Member(v, d)
    ensures u == v && c == d
  {
    OwnerOfMember(u, c);
    OwnerOfMember(v, d);
    assert Member(u, c)[|Decimal(u)| + 1..] == c && Member(v, d)[|Decimal(v)| + 1..] == d;
  }

  // ---------- text order ----------

  predicate Less(a: string, b: string) {
    b != "" && (a == "" || a[0] < b[0] || (a[0] == b[0] && Less(a[1..], b[1..])))
  }

  lemma {:induction false} LessTotal(a: string, b: string)
    ensures a == b || Less(a, b) || Less(b, a)
    ensures !(Less(a, b) && Less(b, a)) && !Less(a, a)
  {
    if a != "" {
      if b != "" {
        LessTotal(a[1..], b[1..]);
        assert a == [a[0]] + a[1..] && b == [b[0]] + b[1..];
      } else {
        LessTotal(a[1..], b);
      }
    }
  }

  lemma {:induction false} LessTransitive(a: string, b: string, c: string)
    requires Less(a, b) && Less(b, c)
    ensures Less(a, c)
  {
    if a != "" && a[0] == b[0] && b[0] == c[0] {
      LessTransitive(a[1..], b[1..], c[1..]);
    }
  }

  predicate Ascending(s: seq<string>) {
    forall i, j :: 0 <= i < j < |s| ==> Less(s[i], s[j])
  }

  /** A sorted list without duplicates is determined by its elements. */
  lemma {:induction false} AscendingUnique(s: seq<string>, t: seq<string>)
    requires Ascending(s) && Ascending(t) && forall x :: x in s <==> x in t
    ensures s == t
  {
    SomeText(s);
    SomeText(t);
    if s != [] {
      assert s[0] in s && t[0] in t;
      var i :| 0 <= i < |t| && t[i] == s[0];
      var j :| 0 <= j < |s| && s[j] == t[0];
      LessTotal(s[0], t[0]);
      assert s[0] == t[0];
      forall x ensures x in s[1..] <==> x in t[1..] {
        TailText(s, x);
        TailText(t, x);
      }
      AscendingUnique(s[1..], t[1..]);
      assert s == [s[0]] + s[1..] && t == [t[0]] + t[1..];
    }
  }

  lemma SomeText(s: seq<string>)
    ensures s == [] || exists x :: x in s
  {
    if s != [] {
      assert s[0] in s;
    }
  }

  lemma TailText(s: seq<string>, x: string)
    requires Ascending(s) && s != []
    ensures x in s[1..] <==> x in s && x != s[0]
  {
    assert s == [s[0]] + s[1..];
    LessTotal(s[0], s[0]);
  }

  method InsertText(s: seq<string>, x: string) returns (r: seq<string>)
    requires Ascending(s) && x !in s
    ensures Ascending(r) && forall y :: y in r <==> y in s || y == x
  {
    var j := |s|;
    while j > 0 && Less(x, s[j - 1])
      invariant 0 <= j <= |s|
      invariant forall i :: j <= i < |s| ==> Less(x, s[i])
    {
      j := j - 1;
    }
    forall i | 0 <= i < j ensures Less(s[i], x) {
      assert s[j - 1] in s;
      LessTotal(s[j - 1], x);
      if i < j - 1 {
        LessTransitive(s[i], s[j - 1], x);
      }
    }
    r := s[..j] + [x] + s[j..];
    InsertedText(s, x, j, r);
  }

  lemma InsertedText(s: seq<string>, x: string, j: nat, r: seq<string>)
    requires Ascending(s) && j <= |s| && r == s[..j] + [x] + s[j..]
    requires forall i :: 0 <= i < j ==> Less(s[i], x)
    requires forall i :: j <= i < |s| ==> Less(x, s[i])
    ensures Ascending(r) && forall y :: y in r <==> y in s || y == x
  {
    hide Less;
    assert s == s[..j] + s[j..];
    forall a, b | 0 <= a < b < |r| ensures Less(r[a], r[b]) {
      assert r[a] == if a < j then s[a] else if a == j then x else s[a - 1];
      assert r[b] == if b < j then s[b] else if b == j then x else s[b - 1];
    }
  }

  // ---------- joining by commas ----------

  function Join(xs: seq<string>): string {
    if xs == [] then ""
    else if |xs| == 1 then xs[0]
    else xs[0] + "," + Join(xs[1..])
  }

  predicate Plain(x: string) { x != "" && ',' !in x }

  /** Length of the text before the first comma. */
  function FirstComma(s: string): nat {
    if s == "" || s[0] == ',' then 0 else 1 + FirstComma(s[1..])
  }

  lemma {:induction false} FirstCommaOf(x: string, rest: string)
    requires ',' !in x && (rest == "" || rest[0] == ',')
    ensures FirstComma(x + rest) == |x|
  {
    if x == "" {
      assert x + rest == rest;
    } else {
      assert (x + rest)[1..] == x[1..] + rest;
      FirstCommaOf(x[1..], rest);
    }
  }

  /** The head and the tail of a list can be read back from the joined text. */
  lemma JoinHead(xs: seq<string>)
    requires xs != [] && forall x :: x in xs ==> Plain(x)
    ensures var s, n := Join(xs), FirstComma(Join(xs));
            && 0 < n <= |s| && s[..n] == xs[0]
            && (n == |s| <==> |xs| == 1)
            && (n < |s| ==> s[n + 1..] == Join(xs[1..]))
  {
    assert xs[0] in xs;
    var rest := if |xs| == 1 then "" else "," + Join(xs[1..]);
    assert Join(xs) == xs[0] + rest;
    FirstCommaOf(xs[0], rest);
  }

  /** Joined lists of comma-free texts are equal only when the lists are. */
  lemma {:induction false} JoinInjective(xs: seq<string>, ys: seq<string>)
    requires (forall x :: x in xs ==> Plain(x)) && (forall y :: y in ys ==> Plain(y))
    requires Join(xs) == Join(ys)
    ensures xs == ys
  {
    if xs != [] {
      JoinHead(xs);
    }
    if ys != [] {
      JoinHead(ys);
    }
    if |xs| > 1 {
      JoinInjective(xs[1..], ys[1..]);
      assert xs == [xs[0]] + xs[1..] && ys == [ys[0]] + ys[1..];
    }
  }

  lemma {:induction false} DigitsPlain(s: string)
    requires s != "" && AllDigits(s)
    ensures Plain(s)
  {
  }
}

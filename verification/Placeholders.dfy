/** Rewriting ? placeholders to $1, $2, ... for PostgreSQL, and when that keeps a query's meaning. */
module Placeholders {

  /** A query as a driver reads it: literal characters and references to numbered arguments. */
  datatype Token = Lit(c: char) | Ref(n: nat)

  predicate IsDigit(c: char) {
    '0' <= c <= '9'
  }

  function DigitChar(n: nat): (c: char)
    requires n < 10
    ensures IsDigit(c) && c as int - '0' as int == n
  {
    (n + '0' as int) as char
  }

  /** strconv.Itoa on natural numbers. */
  function Itoa(n: nat): (s: string)
    ensures |s| > 0 && forall i | 0 <= i < |s| :: IsDigit(s[i])
  {
    if n < 10 then [DigitChar(n)] else Itoa(n / 10) + [DigitChar(n % 10)]
  }

  /** Value of a digit string. */
  function Value(s: string): nat
    requires forall i | 0 <= i < |s| :: IsDigit(s[i])
  {
    if s == [] then 0
    else
      assert IsDigit(s[|s| - 1]);
      10 * Value(s[..|s| - 1]) + (s[|s| - 1] as int - '0' as int)
  }

  // ---- The two readings -----------------------------------------------------------

  /** Every ? is the next argument, counting from n. */
  function ByPosition(q: string, n: nat): seq<Token> {
    if q == [] then []
    else if q[0] == '?' then [Ref(n)] + ByPosition(q[1..], n + 1)
    else [Lit(q[0])] + ByPosition(q[1..], n)
  }

  /** Length of the digit run that q starts with. */
  function DigitRun(q: string): (k: nat)
    ensures k <= |q| && (forall i | 0 <= i < k :: IsDigit(q[i])) && (k < |q| ==> !IsDigit(q[k]))
  {
    if q == [] || !IsDigit(q[0]) then 0 else 1 + DigitRun(q[1..])
  }

  /** A $ with the longest following run of digits is the argument of that number. */
  function ByNumber(q: string): seq<Token>
    decreases |q|
  {
    if q == [] then []
    else
      var tail := q[1..];
      var k := DigitRun(tail);
      if q[0] == '$' && k > 0 then [Ref(Value(tail[..k]))] + ByNumber(tail[k..])
      else [Lit(q[0])] + ByNumber(tail)
  }

  /** The text sent to the database for given arguments. */
  function Substitute(ts: seq<Token>, args: nat -> string): string {
    if ts == [] then []
    else (match ts[0] case Lit(c) => [c] case Ref(n) => args(n)) + Substitute(ts[1..], args)
  }

  // ---- The rewriter ---------------------------------------------------------------

  function Rewrite(q: string, n: nat): string {
    if q == [] then []
    else if q[0] == '?' then ['$'] + (Itoa(n) + Rewrite(q[1..], n + 1))
    else [q[0]] + Rewrite(q[1..], n)
  }

  method Ph(driver: string, q: string) returns (r: string)
    ensures driver != "pgx" ==> r == q
    ensures driver == "pgx" ==> r == Rewrite(q, 1)
    ensures driver == "pgx" ==>
              ((forall args: nat -> string :: Substitute(ByNumber(r), args) == Substitute(ByPosition(q, 1), args))
               <==> Unambiguous(q))
  {
    if driver != "pgx" {
      return q;
    }
    var out, n := "", 1;
    for i := 0 to |q|
      invariant out + Rewrite(q[i..], n) == Rewrite(q, 1)
    {
      var rest := q[i..];
      assert rest[0] == q[i] && rest[1..] == q[i + 1..];
      if q[i] == '?' {
        assert out + Rewrite(rest, n) == out + ['$'] + Itoa(n) + Rewrite(rest[1..], n + 1);
        out := out + ['$'];
        out := out + Itoa(n);
        n := n + 1;
      } else {
        out := out + [q[i]];
      }
    }
    assert q[|q|..] == [];
    RewriteMeaning(q, 1);
    return out;
  }

  /** No ? or $ is directly followed by a digit. */
  predicate Unambiguous(q: string) {
    forall i | 0 <= i < |q| - 1 :: q[i] == '?' || q[i] == '$' ==> !IsDigit(q[i + 1])
  }

  // ---- Meaning ----------------------------------------------------------------------

  lemma {:induction false} ItoaValue(n: nat)
    ensures Value(Itoa(n)) == n
  {
    if n >= 10 {
      ItoaValue(n / 10);
      assert Itoa(n)[..|Itoa(n)| - 1] == Itoa(n / 10);
    } else {
      assert Itoa(n)[..0] == [];
    }
  }

  /** Rewriting keeps the leading digits. */
  lemma RewriteHead(q: string, n: nat)
    ensures q == [] <==> Rewrite(q, n) == []
    ensures q != [] ==> (IsDigit(q[0]) <==> IsDigit(Rewrite(q, n)[0]))
  {
  }

  lemma RewrittenTail(q: string, n: nat)
    requires q != [] && q[0] == '?'
    ensures var r := Rewrite(q, n);
            r != [] && r[0] == '$' && r[1..] == Itoa(n) + Rewrite(q[1..], n + 1)
  {
  }

  /** Reading a $ that is followed by digits and the rest of the query. */
  lemma ReadReference(r: string, digits: string, rest: string)
    requires digits != [] && forall i | 0 <= i < |digits| :: IsDigit(digits[i])
    requires r != [] && r[0] == '$' && r[1..] == digits + rest
    ensures ByNumber(r) != [] && ByNumber(r)[0].Ref?
    ensures ByNumber(r)[1..] == ByNumber(rest[DigitRun(rest)..])
    ensures DigitRun(rest) == 0 ==> ByNumber(r)[0] == Ref(Value(digits))
  {
    hide DigitRun, IsDigit, Value;
    RunConcat(digits, rest);
    assert r[1..][|digits| + DigitRun(rest)..] == rest[DigitRun(rest)..];
    assert (digits + rest)[..|digits|] == digits;
  }

  lemma {:induction false} RunConcat(digits: string, rest: string)
    requires forall i | 0 <= i < |digits| :: IsDigit(digits[i])
    ensures DigitRun(digits + rest) == |digits| + DigitRun(rest)
  {
    if digits == [] {
      assert digits + rest == rest;
    } else {
      assert (digits + rest)[1..] == digits[1..] + rest;
      RunConcat(digits[1..], rest);
    }
  }

  lemma UnambiguousTail(q: string)
    requires q != []
    ensures Unambiguous(q) <==>
            Unambiguous(q[1..]) && ((q[0] == '?' || q[0] == '$') && |q| > 1 ==> !IsDigit(q[1]))
  {
    if Unambiguous(q[1..]) && ((q[0] == '?' || q[0] == '$') && |q| > 1 ==> !IsDigit(q[1])) {
      forall i | 0 <= i < |q| - 1 && (q[i] == '?' || q[i] == '$') ensures !IsDigit(q[i + 1]) {
        if i > 0 {
          assert q[1..][i - 1] == q[i] && q[1..][i - 1 + 1] == q[i + 1];
        }
      }
    }
    if Unambiguous(q) {
      forall i | 0 <= i < |q[1..]| - 1 && (q[1..][i] == '?' || q[1..][i] == '$') ensures !IsDigit(q[1..][i + 1]) {
        assert q[i + 1] == q[1..][i] && q[i + 1 + 1] == q[1..][i + 1];
      }
    }
  }

  /** Without ambiguity both readings give the same tokens. */
  lemma {:induction false} SameTokens(q: string, n: nat)
    requires Unambiguous(q)
    ensures ByNumber(Rewrite(q, n)) == ByPosition(q, n)
  {
    if q != [] {
      UnambiguousTail(q);
      var r, next := Rewrite(q, n), if q[0] == '?' then n + 1 else n;
      var rest := Rewrite(q[1..], next);
      RewriteHead(q[1..], next);
      SameTokens(q[1..], next);
      if q[0] == '?' {
        RewrittenTail(q, n);
        ReadReference(r, Itoa(n), rest);
        assert rest[0..] == rest;
        ItoaValue(n);
      } else {
        assert r[1..] == rest;
      }
    }
  }

  function Literals(ts: seq<Token>): nat {
    if ts == [] then 0 else (if ts[0].Lit? then 1 else 0) + Literals(ts[1..])
  }

  lemma {:induction false} TextOfNothing(ts: seq<Token>)
    ensures |Substitute(ts, _ => "")| == Literals(ts)
  {
    if ts != [] {
      TextOfNothing(ts[1..]);
    }
  }

  /** Leading digits are literals. */
  lemma {:induction false} DigitsAreLiterals(q: string, k: nat)
    requires k <= DigitRun(q)
    ensures Literals(ByNumber(q)) == k + Literals(ByNumber(q[k..]))
  {
    if k == 0 {
      assert q[0..] == q;
    } else {
      DigitsAreLiterals(q[1..], k - 1);
      assert q[1..][k - 1..] == q[k..];
      assert ByNumber(q)[1..] == ByNumber(q[1..]);
    }
  }

  /** Read by number, the rewritten query never has more literals than the original, and it has
      fewer if some ? or $ is directly followed by a digit: those digits are swallowed. */
  lemma {:induction false} SwallowedLiterals(q: string, n: nat)
    ensures Literals(ByNumber(Rewrite(q, n))) <= Literals(ByPosition(q, n))
    ensures !Unambiguous(q) ==> Literals(ByNumber(Rewrite(q, n))) < Literals(ByPosition(q, n))
  {
    if q != [] {
      UnambiguousTail(q);
      var r, next := Rewrite(q, n), if q[0] == '?' then n + 1 else n;
      var rest := Rewrite(q[1..], next);
      RewriteHead(q[1..], next);
      SwallowedLiterals(q[1..], next);
      DigitsAreLiterals(rest, DigitRun(rest));
      assert ByPosition(q, n)[1..] == ByPosition(q[1..], next);
      if q[0] == '?' {
        RewrittenTail(q, n);
        ReadReference(r, Itoa(n), rest);
      } else {
        LiteralHead(r, rest);
      }
    }
  }

  lemma LiteralHead(r: string, rest: string)
    requires r != [] && r[1..] == rest
    ensures ByNumber(r)[1..] == ByNumber(if r[0] == '$' then rest[DigitRun(rest)..] else rest)
    ensures ByNumber(r)[0].Lit? <==> r[0] != '$' || DigitRun(rest) == 0
  {
    assert rest[0..] == rest;
  }

  /** The rewritten query with arguments substituted by number is the original with arguments
      substituted by position, for all arguments, if and only if no ? or $ is directly followed
      by a digit. */
  lemma RewriteMeaning(q: string, n: nat)
    ensures (forall args: nat -> string ::
               Substitute(ByNumber(Rewrite(q, n)), args) == Substitute(ByPosition(q, n), args))
            <==> Unambiguous(q)
  {
    if Unambiguous(q) {
      SameTokens(q, n);
    } else {
      SwallowedLiterals(q, n);
      TextOfNothing(ByNumber(Rewrite(q, n)));
      TextOfNothing(ByPosition(q, n));
      var nothing: nat -> string := _ => "";
      assert Substitute(ByNumber(Rewrite(q, n)), nothing) != Substitute(ByPosition(q, n), nothing);
    }
  }
}

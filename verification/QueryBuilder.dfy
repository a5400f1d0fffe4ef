/** The placeholder rewriting of internal/store/dbutil.go. */
module QueryBuilder {
  import opened Decimal

  datatype Driver = SQLite | Postgres

  function Mark(i: nat): (mark: string)
    ensures '?' !in mark
  {
    "$" + PrintNat(i)
  }

  /** `strings.Replace(s, "?", mark, 1)`. */
  function ReplaceFirst(s: string, mark: string): string {
    if s == "" then ""
    else if s[0] == '?' then mark + s[1..]
    else s[..1] + ReplaceFirst(s[1..], mark)
  }

  /** Reading once from left to right, the question marks become `$k`, `$k+1` and so on up to `$n`; the rest stays. */
  function Numbered(query: string, k: nat, n: int): string {
    if query == "" then ""
    else if query[0] == '?' && k <= n then Mark(k) + Numbered(query[1..], k + 1, n)
    else query[..1] + Numbered(query[1..], k, n)
  }

  function Questions(s: string): nat {
    if s == "" then 0 else (if s[0] == '?' then 1 else 0) + Questions(s[1..])
  }

  // ----- Rounds of replacing are one numbered pass -----

  lemma {:induction false} NoneNumbered(query: string, k: nat, n: int)
    requires k > n
    ensures Numbered(query, k, n) == query
  {
    if query != "" {
      NoneNumbered(query[1..], k, n);
      assert query[..1] + query[1..] == query;
    }
  }

  lemma {:induction false} ReplaceSkips(prefix: string, rest: string, mark: string)
    requires '?' !in prefix
    ensures ReplaceFirst(prefix + rest, mark) == prefix + ReplaceFirst(rest, mark)
  {
    if prefix == "" {
      assert prefix + rest == rest;
    } else {
      var s := prefix + rest;
      assert s[1..] == prefix[1..] + rest && s[..1] == prefix[..1];
      ReplaceSkips(prefix[1..], rest, mark);
      assert prefix == prefix[..1] + prefix[1..];
    }
  }

  /** One more round numbers one more question mark. */
  lemma {:induction false} RoundNumbers(query: string, k: nat, n: nat)
    requires k <= n + 1
    ensures ReplaceFirst(Numbered(query, k, n), Mark(n + 1)) == Numbered(query, k, n + 1)
  {
    if query != "" {
      var rest := query[1..];
      if query[0] != '?' {
        RoundNumbers(rest, k, n);
        ReplaceSkips(query[..1], Numbered(rest, k, n), Mark(n + 1));
      } else if k <= n {
        RoundNumbers(rest, k + 1, n);
        ReplaceSkips(Mark(k), Numbered(rest, k + 1, n), Mark(n + 1));
      } else {
        NoneNumbered(rest, k, n);
        NoneNumbered(rest, k + 1, n + 1);
        assert Numbered(query, k, n) == ['?'] + rest;
      }
    }
  }

  lemma {:induction false} QuestionsConcat(a: string, b: string)
    ensures Questions(a + b) == Questions(a) + Questions(b)
  {
    if a == "" {
      assert a + b == b;
    } else {
      assert (a + b)[1..] == a[1..] + b;
      QuestionsConcat(a[1..], b);
    }
  }

  lemma {:induction false} NoQuestions(s: string)
    ensures Questions(s) == 0 <==> '?' !in s
  {
    if s != "" { NoQuestions(s[1..]); }
  }

  /** Exactly as many question marks go as there were, up to the number of parameters. */
  lemma {:induction false} QuestionsLeft(query: string, k: nat, n: int)
    ensures var marks := if n - k + 1 > 0 then n - k + 1 else 0;
      Questions(Numbered(query, k, n)) == if Questions(query) > marks then Questions(query) - marks else 0
  {
    if query != "" {
      if query[0] == '?' && k <= n {
        QuestionsLeft(query[1..], k + 1, n);
        QuestionsConcat(Mark(k), Numbered(query[1..], k + 1, n));
        NoQuestions(Mark(k));
      } else {
        QuestionsLeft(query[1..], k, n);
        QuestionsConcat(query[..1], Numbered(query[1..], k, n));
        assert query[..1][1..] == "";
      }
    }
  }

  /** A question mark is left, for the server to stumble over, if and only if too few parameters were announced. */
  lemma LeftOverIff(query: string, n: int)
    ensures '?' in Numbered(query, 1, n) <==> Questions(query) > (if n > 0 then n else 0)
  {
    QuestionsLeft(query, 1, n);
    NoQuestions(Numbered(query, 1, n));
  }

  /** Announcing more parameters than there are question marks makes no difference. */
  lemma {:induction false} ExtraParameters(query: string, k: nat, m: int, n: int)
    requires m - k + 1 >= Questions(query) && n - k + 1 >= Questions(query)
    ensures Numbered(query, k, m) == Numbered(query, k, n)
  {
    if query != "" {
      ExtraParameters(query[1..], if query[0] == '?' then k + 1 else k, m, n);
    }
  }

  // ----- The text between the question marks -----

  /** The stretches of text that the question marks separate. */
  function Pieces(query: string): (pieces: seq<string>)
    ensures pieces != [] && forall i :: 0 <= i < |pieces| ==> '?' !in pieces[i]
  {
    if query == "" then [""]
    else if query[0] == '?' then [""] + Pieces(query[1..])
    else [query[..1] + Pieces(query[1..])[0]] + Pieces(query[1..])[1..]
  }

  /** The pieces in order, with `$k` to `$n` and then question marks between them. */
  function Woven(pieces: seq<string>, k: nat, n: int): string
    requires pieces != []
  {
    if |pieces| == 1 then pieces[0]
    else pieces[0] + (if k <= n then Mark(k) else "?") + Woven(pieces[1..], k + 1, n)
  }

  lemma WovenHead(head: string, pieces: seq<string>, k: nat, n: int)
    requires pieces != []
    ensures Woven([head + pieces[0]] + pieces[1..], k, n) == head + Woven(pieces, k, n)
  {
    hide Mark;
  }

  lemma WovenMark(pieces: seq<string>, k: nat, n: int)
    requires pieces != []
    ensures Woven([""] + pieces, k, n) == (if k <= n then Mark(k) else "?") + Woven(pieces, k + 1, n)
  {
    hide Mark;
    assert ([""] + pieces)[1..] == pieces;
  }

  /** The i-th question mark becomes the i-th parameter and every stretch of text between them stays as it was. */
  lemma {:induction false} NumberedIsWoven(query: string, k: nat, n: int)
    ensures Numbered(query, k, n) == Woven(Pieces(query), k, n)
  {
    if query != "" {
      var rest := query[1..];
      if query[0] == '?' {
        WovenMark(Pieces(rest), k, n);
        hide Woven, Mark;
        NumberedIsWoven(rest, k + 1, n);
        if k > n {
          assert query[..1] == "?";
          NoneNumbered(rest, k, n);
          NoneNumbered(rest, k + 1, n);
        }
      } else {
        hide Woven, Mark;
        NumberedIsWoven(rest, k, n);
        WovenHead(query[..1], Pieces(rest), k, n);
      }
    }
  }

  // ----- The builder -----

  lemma NextNumbered(query: string, i: nat, k: nat, n: int)
    requires i < |query|
    ensures Questions(query[i..]) == (if query[i] == '?' then 1 else 0) + Questions(query[i + 1..])
    ensures Numbered(query[i..], k, n) ==
      if query[i] == '?' && k <= n then Mark(k) + Numbered(query[i + 1..], k + 1, n)
      else [query[i]] + Numbered(query[i + 1..], k, n)
  {
    assert query[i..][1..] == query[i + 1..] && query[i..][..1] == [query[i]];
  }

  lemma NothingNumbered(query: string, k: nat, n: int)
    ensures Numbered(query[|query|..], k, n) == "" && Questions(query[|query|..]) == 0
  {
  }

  class Builder {
    const driver: Driver
    var paramCounter: nat

    constructor (driver: Driver)
      ensures this.driver == driver && paramCounter == 0
    {
      this.driver, paramCounter := driver, 0;
    }

    method Placeholder() returns (mark: string)
      modifies this`paramCounter
      ensures paramCounter == old(paramCounter) + 1
      ensures mark == if driver == Postgres then Mark(paramCounter) else "?"
      ensures driver == Postgres ==> mark == "$" + PrintNat(paramCounter)
    {
      paramCounter := paramCounter + 1;
      if driver == Postgres {
        return Mark(paramCounter);
      }
      return "?";
    }

    method Reset()
      modifies this`paramCounter
      ensures paramCounter == 0
    {
      paramCounter := 0;
    }

    method Build(query: string, numParams: int) returns (result: string)
      modifies this`paramCounter
      ensures paramCounter == 0
      ensures result == if driver == Postgres then Numbered(query, 1, numParams) else query
    {
      Reset();
      if driver == SQLite {
        return query;
      }
      result := query;
      NoneNumbered(query, 1, 0);
      if numParams < 1 {
        NoneNumbered(query, 1, numParams);
      }
      var i := 1;
      while i <= numParams
        invariant paramCounter == 0
        invariant 1 <= i && (i <= numParams + 1 || i == 1)
        invariant result == Numbered(query, 1, i - 1)
      {
        RoundNumbers(query, 1, i - 1);
        result := ReplaceFirst(result, Mark(i));
        i := i + 1;
      }
    }

    /** The text a caller gets who writes a placeholder at each question mark instead. */
    method OnePass(query: string) returns (result: string)
      modifies this`paramCounter
      ensures result == if driver == Postgres then Numbered(query, 1, Questions(query)) else query
      ensures paramCounter == Questions(query)
    {
      hide Numbered, Questions, Mark;
      Reset();
      result := "";
      assert query[0..] == query;
      for i := 0 to |query|
        invariant paramCounter + Questions(query[i..]) == Questions(query)
        invariant driver == Postgres ==>
          Numbered(query, 1, Questions(query)) == result + Numbered(query[i..], paramCounter + 1, Questions(query))
        invariant driver == SQLite ==> result == query[..i]
      {
        NextNumbered(query, i, paramCounter + 1, Questions(query));
        if query[i] == '?' {
          var mark := Placeholder();
          result := result + mark;
        } else {
          result := result + [query[i]];
        }
      }
      NothingNumbered(query, paramCounter + 1, Questions(query));
    }
  }
}

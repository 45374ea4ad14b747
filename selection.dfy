/** The selection that formatOverallResultMessage builds to look up the reported instances. */
module ResultQuery {

  /** InstanceColumns._ID + "=?" and the separator between clauses. */
  const IdClause: string := "_id=?"
  const OrSeparator: string := " or "

  /** The clauses joined by OrSeparator. */
  function JoinWithOr(clauses: seq<string>): string
    decreases |clauses|
  {
    if |clauses| == 0 then ""
    else if |clauses| == 1 then clauses[0]
    else JoinWithOr(clauses[..|clauses| - 1]) + OrSeparator + clauses[|clauses| - 1]
  }

  function IdClauses(n: nat): (r: seq<string>)
    ensures |r| == n && forall i | 0 <= i < n :: r[i] == IdClause
  {
    seq(n, _ => IdClause)
  }

  /** The selection for n report keys: n copies of IdClause joined by " or ". */
  function Selection(n: nat): string
  {
    JoinWithOr(IdClauses(n))
  }

  function CountChar(c: char, s: string): (k: nat)
    ensures k <= |s|
    decreases |s|
  {
    if s == [] then 0 else CountChar(c, s[..|s| - 1]) + (if s[|s| - 1] == c then 1 else 0)
  }

  lemma {:induction false} CountCharConcat(c: char, a: string, b: string)
    ensures CountChar(c, a + b) == CountChar(c, a) + CountChar(c, b)
    decreases |b|
  {
    if b != [] {
      assert (a + b)[..|a + b| - 1] == a + b[..|b| - 1];
      CountCharConcat(c, a, b[..|b| - 1]);
    } else {
      assert a + b == a;
    }
  }

  lemma SelectionStep(n: nat)
    requires n >= 1
    ensures Selection(n + 1) == Selection(n) + OrSeparator + IdClause
  {
    assert IdClauses(n + 1)[..n] == IdClauses(n);
  }

  lemma IdClauseHasOnePlaceholder()
    ensures CountChar('?', IdClause) == 1
  {
    assert IdClause == "_id=" + "?";
    CountCharConcat('?', "_id=", "?");
    assert "_id=" == "_id" + "=";
    CountCharConcat('?', "_id", "=");
    assert "_id" == "_i" + "d";
    CountCharConcat('?', "_i", "d");
    assert "_i" == "_" + "i";
    CountCharConcat('?', "_", "i");
  }

  lemma OrSeparatorHasNoPlaceholder()
    ensures CountChar('?', OrSeparator) == 0
  {
    assert OrSeparator == " o" + "r ";
    CountCharConcat('?', " o", "r ");
    assert " o" == " " + "o";
    CountCharConcat('?', " ", "o");
    assert "r " == "r" + " ";
    CountCharConcat('?', "r", " ");
  }

  /** Selection(n) has exactly n "?" placeholders, one per selection argument, and n - 1 separators. */
  lemma {:induction false} SelectionPlaceholders(n: nat)
    ensures CountChar('?', Selection(n)) == n
    ensures |Selection(n)| == if n == 0 then 0 else |IdClause| * n + |OrSeparator| * (n - 1)
  {
    if n == 1 {
      assert Selection(1) == IdClause;
      IdClauseHasOnePlaceholder();
    } else if n > 1 {
      SelectionPlaceholders(n - 1);
      SelectionStep(n - 1);
      IdClauseHasOnePlaceholder();
      OrSeparatorHasNoPlaceholder();
      CountCharConcat('?', Selection(n - 1) + OrSeparator, IdClause);
      CountCharConcat('?', Selection(n - 1), OrSeparator);
    }
  }

  /**
   * The selection part of formatOverallResultMessage. `order` is the iteration order of the report's
   * key set: every key once.
   */
  method FormatSelection(report: map<string, string>, order: seq<string>) returns (selection: string, selectionArgs: array<string>)
    requires |order| == |report|
    requires forall id :: id in order <==> id in report
    ensures fresh(selectionArgs)
    ensures selection == Selection(|report|)
    ensures selectionArgs[..] == order
  {
    var size := |report|;
    selection := "";
    selectionArgs := new string[size];
    var i := 0;
    while i < |order|
      invariant 0 <= i <= size
      invariant selectionArgs[..i] == order[..i]
      invariant selection == if i == 0 then "" else Selection(i) + (if i != size then OrSeparator else "")
    {
      var id := order[i];
      if i > 0 {
        SelectionStep(i);
      }
      selection := selection + IdClause;
      selectionArgs[i] := id;
      i := i + 1;
      if i != size {
        selection := selection + OrSeparator;
      }
    }
    assert selectionArgs[..] == selectionArgs[..size];
  }
}

/** Choosing one token of a row: the engine's argmax and the probe's rule for tokens that carry content. */
module Advance {
  import opened KvCache
  import opened Sessions
  import opened Wrappers

  datatype Rule = Greedy | Content

  /** `t` is the first maximum of the row among the tokens outside `closers`. */
  ghost predicate FirstMax(row: Row, closers: set<Token>, t: Token) {
    && 0 <= t < |row| && t !in closers
    && (forall u :: 0 <= u < |row| && u !in closers ==> row[u] <= row[t])
    && (forall u :: 0 <= u < t && u !in closers ==> row[u] < row[t])
  }

  ghost predicate HasContent(row: Row, closers: set<Token>) {
    exists t :: 0 <= t < |row| && t !in closers
  }

  /** What a rule may not name: `greedy` reads the row's own argmax, closers included. */
  function Excluded(closers: set<Token>, rule: Rule): set<Token> {
    if rule.Greedy? then {} else closers
  }

  /** `readout.argmax_first`: the lowest index wins a tie; an empty row is an error. */
  method ArgmaxFirst(row: Row) returns (r: Result<Token, Stop>)
    ensures r.Success? <==> row != []
    ensures r.Failure? ==> r.error == NoContentToken
    ensures r.Success? ==> FirstMax(row, {}, r.value)
  {
    if row == [] {
      return Failure(NoContentToken);
    }
    var best, bestValue := 0, row[0];
    for index := 1 to |row|
      invariant 0 <= best < index && bestValue == row[best]
      invariant forall u :: 0 <= u < index ==> row[u] <= bestValue
      invariant forall u :: 0 <= u < best ==> row[u] < bestValue
    {
      if row[index] > bestValue {
        best, bestValue := index, row[index];
      }
    }
    return Success(best);
  }

  method AdvanceToken(row: Row, closers: set<Token>, rule: Rule) returns (r: Result<Token, Stop>)
    ensures r.Success? <==> HasContent(row, Excluded(closers, rule))
    ensures r.Success? ==> FirstMax(row, Excluded(closers, rule), r.value)
    ensures rule.Greedy? ==> (r.Success? <==> row != []) && (r.Success? ==> FirstMax(row, {}, r.value))
    ensures rule.Content? ==>
              (r.Success? <==> exists t :: 0 <= t < |row| && t !in closers) && (r.Success? ==> FirstMax(row, closers, r.value))
  {
    if rule.Greedy? {
      r := ArgmaxFirst(row);
      assert row != [] ==> row[0] <= row[0] && 0 !in Excluded(closers, rule);
      return;
    }
    var best: int, bestValue := -1, 0.0;
    for token := 0 to |row|
      invariant -1 <= best < token
      invariant best < 0 ==> forall u :: 0 <= u < token ==> u in closers
      invariant best >= 0 ==> best !in closers && bestValue == row[best]
      invariant best >= 0 ==> forall u :: 0 <= u < token && u !in closers ==> row[u] <= bestValue
      invariant best >= 0 ==> forall u :: 0 <= u < best && u !in closers ==> row[u] < bestValue
    {
      if token !in closers && (best < 0 || row[token] > bestValue) {
        best, bestValue := token, row[token];
      }
    }
    if best < 0 {
      return Failure(NoContentToken);
    }
    return Success(best);
  }
}

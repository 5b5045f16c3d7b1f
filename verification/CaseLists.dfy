/**
 The select-case lists of event/feed.go, on values: find, delete and deactivate.

 delete is the one the comment describes; DeleteAsWritten is the text of line 208.
 */
module CaseLists {

  type Chan = nat

  /** The receive case of removeSub, or the send case of a subscribed channel. */
  datatype Case = RemoveSub | Sub(chan: Chan)

  /** The first place of a channel, or -1. */
  function Find(cs: seq<Case>, c: Chan): (i: int)
    ensures -1 <= i < |cs|
    ensures i >= 0 ==> cs[i] == Sub(c) && Sub(c) !in cs[..i]
    ensures i == -1 <==> Sub(c) !in cs
  {
    FindFrom(cs, c, 0)
  }

  function FindFrom(cs: seq<Case>, c: Chan, from: nat): (i: int)
    requires from <= |cs| && Sub(c) !in cs[..from]
    ensures -1 <= i < |cs|
    ensures i >= 0 ==> cs[i] == Sub(c) && Sub(c) !in cs[..i]
    ensures i == -1 <==> Sub(c) !in cs
    decreases |cs| - from
  {
    if from == |cs| then
      assert cs[..from] == cs;
      -1
    else if cs[from] == Sub(c) then from
    else
      assert cs[..from + 1] == cs[..from] + [cs[from]];
      FindFrom(cs, c, from + 1)
  }

  function Delete<T>(cs: seq<T>, i: nat): seq<T>
    requires i < |cs|
  {
    cs[..i] + cs[i + 1..]
  }

  /** append(cs[:index], cs[:index+1]...) */
  function DeleteAsWritten<T>(cs: seq<T>, i: nat): seq<T>
    requires i < |cs|
  {
    cs[..i] + cs[..i + 1]
  }

  /** Entry i changes places with the last of the first m, which are then m - 1. */
  function Deactivate<T>(cs: seq<T>, m: nat, i: nat): seq<T>
    requires i < m <= |cs|
  {
    cs[i := cs[m - 1]][m - 1 := cs[i]]
  }

  lemma DeleteKeepsOthers<T>(cs: seq<T>, i: nat)
    requires i < |cs|
    ensures multiset(Delete(cs, i)) + multiset{cs[i]} == multiset(cs)
  {
    assert cs == cs[..i] + [cs[i]] + cs[i + 1..];
  }

  /** The text deletes entry i exactly when the list is some list twice over, cut in its middle. */
  lemma DeleteAsWrittenIff<T>(cs: seq<T>, i: nat)
    requires i < |cs|
    ensures DeleteAsWritten(cs, i) == Delete(cs, i) <==> |cs| == 2 * (i + 1) && cs[..i + 1] == cs[i + 1..]
  {
    var a, b := DeleteAsWritten(cs, i), Delete(cs, i);
    if a == b {
      assert a[i..] == cs[..i + 1] && b[i..] == cs[i + 1..];
    }
  }

  /** So it never removes a subscription from a list that starts with the one removeSub case. */
  lemma DeleteAsWrittenNeverRemoves(cs: seq<Case>, i: nat)
    requires 0 < i < |cs| && cs[0] == RemoveSub && RemoveSub !in cs[1..]
    ensures DeleteAsWritten(cs, i) != Delete(cs, i)
  {
    assert i + 1 < |cs| ==> cs[i + 1] == cs[1..][i];
    assert cs[..i + 1][0] == RemoveSub;
    DeleteAsWrittenIff(cs, i);
  }

  /** The last inbox entry of a one-entry inbox stays. */
  lemma DeleteAsWrittenKeepsTheOnly(c: Chan)
    ensures DeleteAsWritten([Sub(c)], 0) == [Sub(c)] && Delete([Sub(c)], 0) == []
  {
  }
}

/**
 * The verification cascade that both the request guard and the refresh
 * handler run over a user's key history: a token that verifies under the
 * newest key is current; one that verifies only under an older key is a reused
 * (superseded) token; one that verifies under none is rejected.
 */
module Cascade {
  import opened Wrappers
  import opened Text
  import opened Crypto
  import opened KeyTokenEntity
  import opened KeyTokens

  predicate Verifies(j: JwtScheme, token: string, key: PublicKey, now: int) {
    j.verify(token, key, now).Verified?
  }

  /** The first index at or after `from` whose key verifies the token, if any. */
  function FirstVerifyingFrom(j: JwtScheme, token: string, history: seq<PublicKey>, from: nat, now: int): (r: Option<nat>)
    ensures r.Some? ==>
      && from <= r.value < |history|
      && Verifies(j, token, history[r.value], now)
      && forall k :: from <= k < r.value ==> !Verifies(j, token, history[k], now)
    ensures r.None? ==> forall k :: from <= k < |history| ==> !Verifies(j, token, history[k], now)
    decreases |history| - from
  {
    if from >= |history| then None
    else if Verifies(j, token, history[from], now) then Some(from)
    else FirstVerifyingFrom(j, token, history, from + 1, now)
  }

  /**
   * The loop `for (i = 1; i < history.length; i++)` that both callers run
   * once the newest key has failed: the first older key that verifies.
   */
  method ScanOlderKeys(j: JwtScheme, token: string, history: seq<PublicKey>, now: int) returns (r: Option<nat>)
    ensures r == FirstVerifyingFrom(j, token, history, 1, now)
  {
    var i := 1;
    while i < |history|
      invariant 1 <= i
      invariant FirstVerifyingFrom(j, token, history, 1, now) == FirstVerifyingFrom(j, token, history, i, now)
    {
      if Verifies(j, token, history[i], now) {
        return Some(i);
      }
      i := i + 1;
    }
    return None;
  }

  datatype Verdict =
    | Current(claims: Claims)     // verifies under history[0]
    | Superseded(index: nat)      // verifies first under the older key history[index]
    | Unmatched                   // verifies under no key of the history

  /** How the cascade classifies `token` against `history` at time `now`. */
  function Classify(j: JwtScheme, token: string, history: seq<PublicKey>, now: int): (v: Verdict)
    ensures v.Current? <==> |history| > 0 && Verifies(j, token, history[0], now)
    ensures v.Current? ==> j.verify(token, history[0], now) == Verified(v.claims)
    ensures v.Superseded? ==>
      && 1 <= v.index < |history|
      && !Verifies(j, token, history[0], now)
      && Verifies(j, token, history[v.index], now)
      && forall k :: 1 <= k < v.index ==> !Verifies(j, token, history[k], now)
    ensures v.Unmatched? <==> forall k :: 0 <= k < |history| ==> !Verifies(j, token, history[k], now)
  {
    if |history| == 0 then Unmatched
    else match j.verify(token, history[0], now)
      case Verified(c) => Current(c)
      case _ =>
        match FirstVerifyingFrom(j, token, history, 1, now)
        case Some(i) => Superseded(i)
        case None => Unmatched
  }

  /** A history of one key never reports reuse. */
  lemma SingleKeyNeverSuperseded(j: JwtScheme, token: string, history: seq<PublicKey>, now: int)
    requires |history| <= 1
    ensures !Classify(j, token, history, now).Superseded?
  {
  }

  /** A key occurs at most once in the history. */
  predicate DistinctKeys(history: seq<PublicKey>) {
    forall a, b :: 0 <= a < b < |history| ==> history[a] != history[b]
  }

  /** An unexpired token signed with the newest key is current and carries its claims. */
  lemma SignedWithNewestIsCurrent(j: JwtScheme, c: Claims, k: PrivateKey, exp: int, history: seq<PublicKey>, now: int)
    requires Sound(j)
    requires |history| > 0 && history[0] == PublicOf(k) && now < exp
    ensures Classify(j, j.sign(c, k, exp), history, now) == Current(c)
  {
    assert j.verify(j.sign(c, k, exp), PublicOf(k), now) == Verified(c);
  }

  /** An unexpired token signed with the older key at `i` is reported as reuse at exactly `i`. */
  lemma SignedWithOlderIsSuperseded(j: JwtScheme, c: Claims, k: PrivateKey, exp: int, history: seq<PublicKey>, i: nat, now: int)
    requires Sound(j)
    requires DistinctKeys(history)
    requires 1 <= i < |history| && history[i] == PublicOf(k) && now < exp
    ensures Classify(j, j.sign(c, k, exp), history, now) == Superseded(i)
  {
    var t := j.sign(c, k, exp);
    assert j.verify(t, history[i], now) == Verified(c);
    assert j.verify(t, history[0], now) == InvalidToken;
  }

  /** A token whose signing key is not in the history, or that has expired, is plainly rejected. */
  lemma UnknownKeyOrExpiredIsUnmatched(j: JwtScheme, c: Claims, k: PrivateKey, exp: int, history: seq<PublicKey>, now: int)
    requires Sound(j)
    requires PublicOf(k) !in history || now >= exp
    ensures Classify(j, j.sign(c, k, exp), history, now) == Unmatched
  {
    var t := j.sign(c, k, exp);
    forall idx | 0 <= idx < |history|
      ensures !Verifies(j, t, history[idx], now)
    {
      if history[idx] == PublicOf(k) {
        assert j.verify(t, PublicOf(k), now) == TokenExpired;
      } else {
        assert j.verify(t, history[idx], now) == InvalidToken;
      }
    }
  }

  /**
   * The detection window. After issuing the distinct keys `keys` in order, an
   * unexpired token signed with `keys[m]` is current when it is the last key,
   * reported as reuse when it is one of the two before, and plainly rejected
   * when it is older still.
   */
  lemma DetectionWindow(j: JwtScheme, c: Claims, keys: seq<PublicKey>, m: nat, exp: int, now: int)
    requires Sound(j)
    requires forall a, b :: 0 <= a < b < |keys| ==> keys[a] != keys[b]
    requires m < |keys| && now < exp
    ensures var n := |keys|;
      Classify(j, j.sign(c, PrivateKey(keys[m].id), exp), HistoryAfter(keys), now) ==
        if m == n - 1 then Current(c)
        else if m >= n - MaxHistory then Superseded(n - 1 - m)
        else Unmatched
  {
    var n := |keys|;
    var h := HistoryAfter(keys);
    var k := PrivateKey(keys[m].id);
    HistoryPositions(keys, m);
    if m == n - 1 {
      SignedWithNewestIsCurrent(j, c, k, exp, h, now);
    } else if m >= n - MaxHistory {
      SignedWithOlderIsSuperseded(j, c, k, exp, h, n - 1 - m, now);
    } else {
      UnknownKeyOrExpiredIsUnmatched(j, c, k, exp, h, now);
    }
  }

  /** Where the `m`-th of a run of distinct issued keys sits in the resulting history, if anywhere. */
  lemma HistoryPositions(keys: seq<PublicKey>, m: nat)
    requires forall a, b :: 0 <= a < b < |keys| ==> keys[a] != keys[b]
    requires m < |keys|
    ensures |HistoryAfter(keys)| == Min(|keys|, MaxHistory)
    ensures DistinctKeys(HistoryAfter(keys))
    ensures |keys| - MaxHistory <= m ==> HistoryAfter(keys)[|keys| - 1 - m] == keys[m]
    ensures m < |keys| - MaxHistory ==> keys[m] !in HistoryAfter(keys)
  {
    var n := |keys|;
    var h := HistoryAfter(keys);
    HistoryAfterNewestFirst(keys);
    forall a, b | 0 <= a < b < |h|
      ensures h[a] != h[b]
    {
      assert h[a] == keys[n - 1 - a] && h[b] == keys[n - 1 - b];
    }
    if m < n - MaxHistory {
      forall idx | 0 <= idx < |h|
        ensures h[idx] != keys[m]
      {
        assert h[idx] == keys[n - 1 - idx];
      }
    }
  }
}

/** Detection of consecutive identical tool calls (agent/loopdetect.py). */
module LoopDetection {
  import opened Wrappers
  import opened Transcripts

  function Signature(call: ToolCall): string {
    call.toolId + ":" + call.arguments
  }

  function Signatures(calls: seq<ToolCall>): (s: seq<string>)
    ensures |s| == |calls| && forall i :: 0 <= i < |calls| ==> s[i] == Signature(calls[i])
  {
    seq(|calls|, i requires 0 <= i < |calls| => Signature(calls[i]))
  }

  // n equal entries in a row, starting at i.
  predicate EqualRun<T(==)>(s: seq<T>, i: int, n: int) {
    0 <= i && i + n <= |s| && forall k :: i <= k < i + n ==> s[k] == s[i]
  }

  /** Nowhere n equal entries in a row. */
  ghost predicate LoopFree<T>(s: seq<T>, n: int) {
    forall i :: !EqualRun(s, i, n)
  }

  /** The last k entries are equal, and no more than those. */
  ghost predicate IsStreak<T>(s: seq<T>, k: nat) {
    && k <= |s| && (s != [] ==> k > 0)
    && (forall i :: |s| - k <= i < |s| ==> s[i] == s[|s| - 1])
    && (0 < k < |s| ==> s[|s| - k - 1] != s[|s| - 1])
  }

  /** An entry closes a run of n exactly when the streak it leads to is n or longer. */
  lemma StreakDecidesLoop<T>(s: seq<T>, x: T, k: nat, n: int)
    requires n > 0 && LoopFree(s, n) && IsStreak(s + [x], k)
    ensures LoopFree(s + [x], n) <==> k < n
  {
    var t := s + [x];
    if k >= n {
      var i := |t| - n;
      assert EqualRun(t, i, n);
    } else {
      forall i ensures !EqualRun(t, i, n) {
        if EqualRun(t, i, n) {
          if i + n <= |s| {
            assert forall k :: i <= k < i + n ==> t[k] == s[k];
            assert EqualRun(s, i, n);
          }
        }
      }
    }
  }

  lemma LoopFreePrefix<T>(s: seq<T>, t: seq<T>, n: int)
    requires n > 0 && LoopFree(s + t, n)
    ensures LoopFree(s, n)
  {
    forall i ensures !EqualRun(s, i, n) {
      if EqualRun(s, i, n) {
        assert forall k :: i <= k < i + n ==> (s + t)[k] == s[k];
        assert EqualRun(s + t, i, n);
      }
    }
  }

  class LoopDetector {
    const threshold: int
    var streak: nat
    var last: Option<string>
    ghost var recorded: seq<string>  // every signature recorded

    ghost predicate Valid()
      reads this
    {
      && threshold >= 2 && IsStreak(recorded, streak)
      && last == if recorded == [] then None else Some(recorded[|recorded| - 1])
    }

    constructor (threshold: int)
      requires threshold >= 2
      ensures Valid() && this.threshold == threshold && recorded == []
    {
      this.threshold := threshold;
      streak, last, recorded := 0, None, [];
    }

    /** Records a call; true when that makes `threshold` identical calls in a row. */
    method Record(call: ToolCall) returns (loop: bool)
      requires Valid()
      modifies this`streak, this`last, this`recorded
      ensures Valid() && recorded == old(recorded) + [Signature(call)]
      ensures loop <==> streak >= threshold
      ensures LoopFree(old(recorded), threshold) ==> (loop <==> !LoopFree(recorded, threshold))
    {
      var signature := Signature(call);
      if Some(signature) == last {
        streak := streak + 1;
      } else {
        streak := 1;
        last := Some(signature);
      }
      recorded := recorded + [signature];
      if LoopFree(old(recorded), threshold) {
        StreakDecidesLoop(old(recorded), signature, streak, threshold);
      }
      loop := streak >= threshold;
    }
  }
}

/** The audio-output callback of the resampler speaker: frames counted at the output rate,
    reported at the source rate, with the remainder of the division carried along. */
module FrameRate {
  import opened Words

  /** One callback: what is reported and the new remainder. The product is taken in 32 bits,
      the sum and the division in 64. */
  function Convert(newFrames: nat, source: nat, target: nat, remainder: nat): (r: (nat, nat))
    requires target > 0
  {
    if source != target then
      var numerator := newFrames * source % U32_MOD + remainder;
      (numerator / target, numerator % target)
    else (newFrames, remainder)
  }

  function Sum(frames: seq<nat>): nat {
    if frames == [] then 0 else Sum(frames[..|frames| - 1]) + frames[|frames| - 1]
  }

  /** Total reported and remainder after a sequence of callbacks since the last start. */
  function Converted(frames: seq<nat>, source: nat, target: nat): (r: (nat, nat))
    requires target > 0
  {
    if frames == [] then (0, 0)
    else
      var before := Converted(frames[..|frames| - 1], source, target);
      var now := Convert(frames[|frames| - 1], source, target, before.1);
      (before.0 + now.0, now.1)
  }

  lemma ConvertedSnoc(frames: seq<nat>, newFrames: nat, source: nat, target: nat)
    requires target > 0
    ensures var before := Converted(frames, source, target);
            var now := Convert(newFrames, source, target, before.1);
            Converted(frames + [newFrames], source, target) == (before.0 + now.0, now.1)
  {
    assert (frames + [newFrames])[..|frames|] == frames;
  }

  /** How many whole turns of 32 bits the products lost. */
  function Lost(frames: seq<nat>, source: nat): nat {
    if frames == [] then 0
    else Lost(frames[..|frames| - 1], source) + frames[|frames| - 1] * source / U32_MOD
  }

  predicate NoOverflow(frames: seq<nat>, source: nat) {
    forall i :: 0 <= i < |frames| ==> frames[i] * source < U32_MOD
  }

  lemma {:induction false} LostIffOverflow(frames: seq<nat>, source: nat)
    ensures Lost(frames, source) == 0 <==> NoOverflow(frames, source)
  {
    if frames == [] {
    } else {
      var n := |frames| - 1;
      LostIffOverflow(frames[..n], source);
      var p := frames[n] * source;
      assert p / U32_MOD == 0 <==> p < U32_MOD;
      assert forall i :: 0 <= i < n ==> frames[..n][i] == frames[i];
      assert NoOverflow(frames, source) <==> NoOverflow(frames[..n], source) && p < U32_MOD;
    }
  }

  /** One callback moves its product, less the lost turns, into reports and remainder. */
  lemma LedgerStep(product: nat, rest: nat, target: nat)
    requires target > 0
    ensures var numerator := product % U32_MOD + rest;
            && numerator / target * target + numerator % target
               == product - U32_MOD * (product / U32_MOD) + rest
            && numerator % target < target
  {
  }

  lemma Distribute(a: nat, b: nat, c: nat)
    ensures (a + b) * c == a * c + b * c && c * (a + b) == c * a + c * b
  {
  }

  lemma LedgerAdds(total: nat, rest: nat, sum: nat, lost: nat, last: nat, source: nat, target: nat)
    requires target > 0 && total * target + rest == source * sum - U32_MOD * lost
    ensures var product := last * source;
            var numerator := product % U32_MOD + rest;
            && (total + numerator / target) * target + numerator % target
               == source * (sum + last) - U32_MOD * (lost + product / U32_MOD)
            && numerator % target < target
  {
    var product := last * source;
    LedgerStep(product, rest, target);
    Distribute(total, (product % U32_MOD + rest) / target, target);
    Distribute(sum, last, source);
  }

  /** Nothing is created or lost but those turns: reported frames and remainder account for
      every product. */
  lemma {:induction false} Ledger(frames: seq<nat>, source: nat, target: nat)
    requires target > 0 && source != target
    ensures var (total, rest) := Converted(frames, source, target);
            total * target + rest == source * Sum(frames) - U32_MOD * Lost(frames, source) && rest < target
  {
    if frames == [] {
    } else {
      var init, last := frames[..|frames| - 1], frames[|frames| - 1];
      Ledger(init, source, target);
      var (total, rest) := Converted(init, source, target);
      LedgerAdds(total, rest, Sum(init), Lost(init, source), last, source, target);
    }
  }

  lemma QuotientUnique(q: nat, rest: nat, target: nat)
    requires rest < target
    ensures (q * target + rest) / target == q
  {
    QuotientAtLeast(q, q * target + rest, target);
    var x := q * target + rest;
    assert x / target * target <= x < (q + 1) * target;
    CancelLess(x / target, q + 1, target);
  }

  /** With different rates, the frames reported over any sequence of callbacks are the exact
      converted count rounded down, so the drift stays under one frame, if and only if no
      single callback overflows the 32-bit product. */
  lemma ReportsRoundDown(frames: seq<nat>, source: nat, target: nat)
    requires 0 < target < U32_MOD && source != target
    ensures Converted(frames, source, target).1 < target
    ensures Converted(frames, source, target).0 == source * Sum(frames) / target <==> NoOverflow(frames, source)
  {
    var (total, rest) := Converted(frames, source, target);
    Ledger(frames, source, target);
    LostIffOverflow(frames, source);
    var exact := source * Sum(frames);
    QuotientUnique(total, rest, target);
    if Lost(frames, source) > 0 {
      assert total * target + target <= exact;
      assert (total + 1) * target == total * target + target;
      QuotientAtLeast(total + 1, exact, target);
    }
  }

  /** With equal rates every frame is reported as it comes. */
  lemma {:induction false} EqualRatesPassThrough(frames: seq<nat>, rate: nat)
    requires rate > 0
    ensures Converted(frames, rate, rate) == (Sum(frames), 0)
  {
    if frames == [] {
    } else {
      EqualRatesPassThrough(frames[..|frames| - 1], rate);
    }
  }

  /** The callback with its remainder as a field. */
  class OutputCallback {
    const source: nat
    const target: nat
    var remainder: nat
    ghost var seen: seq<nat>
    ghost var reported: nat

    ghost predicate Valid()
      reads this
    {
      0 < target < U32_MOD && source < U32_MOD && (reported, remainder) == Converted(seen, source, target)
    }

    /** A successful start clears the remainder. */
    constructor (source: nat, target: nat)
      requires 0 < target < U32_MOD && source < U32_MOD
      ensures Valid() && this.source == source && this.target == target && seen == [] && reported == 0
    {
      this.source, this.target, remainder := source, target, 0;
      seen, reported := [], 0;
    }

    method OnAudioOutput(newFrames: nat) returns (frames: nat)
      requires Valid() && newFrames < U32_MOD
      modifies this
      ensures Valid() && seen == old(seen) + [newFrames] && reported == old(reported) + frames
      ensures source == target ==> frames == newFrames
    {
      ConvertedSnoc(seen, newFrames, source, target);
      var numerator := newFrames * source % U32_MOD + remainder;
      if source != target {
        remainder := numerator % target;
        frames := numerator / target;
      } else {
        frames := newFrames;
      }
      seen := seen + [newFrames];
      reported := reported + frames;
    }
  }
}

/** The target video bitrate handed to the encoder: the source's overall
    bitrate scaled by a compression factor and rounded DOWN to a multiple of
    1024 (transcode_recordings.py:274-275). The factor, a float in the script,
    is a rational `num / den` here. */
module Bitrate {

  /** The script's default factor, 0.6. */
  const DefaultFactorNum: nat := 3
  const DefaultFactorDen: nat := 5

  const Alignment: nat := 1024

  /** `int((src * factor) // 1024 * 1024)`. Python's `//` floors, and so does
      Dafny's `/` for a positive divisor, negative sources included. */
  function TargetBitrate(src: int, num: nat, den: nat): (r: int)
    requires den > 0
    ensures r % Alignment == 0
    ensures r * den <= src * num < (r + Alignment) * den
  {
    var q := (src * num) / (den * Alignment);
    FloorBounds(src * num, den * Alignment);
    assert q * Alignment * den == q * (den * Alignment);
    assert (q * Alignment + Alignment) * den == (q + 1) * (den * Alignment);
    q * Alignment
  }

  lemma FloorBounds(x: int, d: int)
    requires d > 0
    ensures (x / d) * d <= x < (x / d + 1) * d
  {
  }

  /** No multiple of 1024 closer to `src * factor` from below exists: the
      rounding is a floor, not a rounding up to the next multiple. */
  lemma {:induction false} TargetIsGreatestAlignedBelow(src: int, num: nat, den: nat, m: int)
    requires den > 0
    requires m % Alignment == 0 && m * den <= src * num
    ensures m <= TargetBitrate(src, num, den)
  {
    var r := TargetBitrate(src, num, den);
    if m > r {
      assert m >= r + Alignment by {
        assert (m - r) % Alignment == 0;
      }
      MultiplyMonotone(r + Alignment, m, den);
      assert false;
    }
  }

  lemma MultiplyMonotone(a: int, b: int, c: nat)
    requires a <= b
    ensures a * c <= b * c
  {
  }

  /** A non-negative source bitrate gives a non-negative target that does not
      exceed the scaled source bitrate. */
  lemma TargetNonNegative(src: nat, num: nat, den: nat)
    requires den > 0
    ensures 0 <= TargetBitrate(src, num, den)
    ensures TargetBitrate(src, num, den) * den <= src * num
  {
  }

  /** With the default factor, a 5,000,000 bit/s source gets 2,999,296 bit/s
      (3,000,000 rounded down to 2929 * 1024). */
  lemma DefaultFactorExample()
    ensures TargetBitrate(5000000, DefaultFactorNum, DefaultFactorDen) == 2999296
  {
  }
}

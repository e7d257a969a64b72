// The depth data processor's decoder: a depth frame is a byte array with two
// bytes per pixel. The low three bits of the first byte are the player index
// (0 for no player) and the remaining thirteen bits are the depth in millimetres.
// The decoder computes, per player, the largest depth seen.
module DepthDataProcessor {
  import ResultCodes

  /** The player index of a pixel: the low three bits of its first byte. */
  function Player(lo: bv8): (player: int)
    ensures 0 <= player <= 7
    ensures player == lo as int % 8
  {
    (lo & 7) as int
  }

  /** The depth of a pixel: the second byte shifted left by five, or-ed with the
      first byte shifted right by three. */
  function RealDepth(lo: bv8, hi: bv8): (depth: int) {
    (((hi as bv16) << 5) | ((lo as bv16) >> 3)) as int
  }

  /** The depth is the thirteen bits above the player index, read as a number:
      the second byte counts in units of 32 mm and the top five bits of the first
      byte in single millimetres, so a depth lies in 0..8191. */
  lemma RealDepthDecodes(lo: bv8, hi: bv8)
    ensures RealDepth(lo, hi) == hi as int * 32 + lo as int / 8
    ensures 0 <= RealDepth(lo, hi) <= 8191
  {
    var h := hi as bv16;
    var l := lo as bv16;
    assert (h << 5) | (l >> 3) == h * 32 + l / 8 by {
      assert h < 256 && l < 256;
    }
    assert h * 32 + l / 8 < 8192 by {
      assert h < 256 && l < 256;
    }
  }

  /** The largest depth among the pixels of `player` in the first `n` pixels of
      the frame, or -1 when there is none. */
  function MaxDepth(frame: seq<bv8>, player: int, n: nat): (r: int)
    requires 2 * n <= |frame|
    decreases n
  {
    if n == 0 then -1
    else
      var before := MaxDepth(frame, player, n - 1);
      var lo, hi := frame[2 * (n - 1)], frame[2 * (n - 1) + 1];
      if Player(lo) == player && RealDepth(lo, hi) > before then RealDepth(lo, hi) else before
  }

  /** MaxDepth is -1 exactly when the player has no pixel, is at least the depth
      of every pixel of the player, and is the depth of one of them otherwise. */
  lemma {:induction false} MaxDepthIsMaximum(frame: seq<bv8>, player: int, n: nat)
    requires 2 * n <= |frame|
    ensures MaxDepth(frame, player, n) == -1
      <==> forall k | 0 <= k < n :: Player(frame[2 * k]) != player
    ensures forall k | 0 <= k < n && Player(frame[2 * k]) == player ::
      RealDepth(frame[2 * k], frame[2 * k + 1]) <= MaxDepth(frame, player, n)
    ensures MaxDepth(frame, player, n) != -1 ==>
      exists k | 0 <= k < n :: Player(frame[2 * k]) == player
        && RealDepth(frame[2 * k], frame[2 * k + 1]) == MaxDepth(frame, player, n)
  {
    if n > 0 {
      MaxDepthIsMaximum(frame, player, n - 1);
      var lo, hi := frame[2 * (n - 1)], frame[2 * (n - 1) + 1];
      RealDepthDecodes(lo, hi);
      forall k | 0 <= k < n - 1 && Player(frame[2 * k]) == player {
        RealDepthDecodes(frame[2 * k], frame[2 * k + 1]);
      }
    }
  }

  /** A player's maximum never decreases as pixels are added. */
  lemma {:induction false} MaxDepthGrows(frame: seq<bv8>, player: int, n: nat, m: nat)
    requires n <= m && 2 * m <= |frame|
    ensures MaxDepth(frame, player, n) <= MaxDepth(frame, player, m)
    decreases m - n
  {
    if n < m {
      MaxDepthGrows(frame, player, n, m - 1);
    }
  }

  /** Decode every pixel and return the per-player maximum depths, whose slot 0
      stays -1: slot 0 is reset on every pixel and the pixels without a player are
      only traced. The source returns Success and discards the array; it is
      returned here so that its final contents can be stated. */
  method CheckPlayerDepth(depthFrame16: array<bv8>) returns (result: int, playerMaxVal: array<int>)
    requires depthFrame16.Length % 2 == 0
    ensures result == ResultCodes.Success
    ensures fresh(playerMaxVal) && playerMaxVal.Length == 8
    ensures playerMaxVal[0] == -1
    ensures forall p | 1 <= p < 8 :: playerMaxVal[p] == MaxDepth(depthFrame16[..], p, depthFrame16.Length / 2)
  {
    playerMaxVal := new int[8];
    for j := 0 to 8
      invariant forall k | 0 <= k < j :: playerMaxVal[k] == -1
    {
      playerMaxVal[j] := -1;
    }
    ghost var frame := depthFrame16[..];
    var i16 := 0;
    while i16 < depthFrame16.Length
      invariant 0 <= i16 <= depthFrame16.Length && i16 % 2 == 0
      invariant playerMaxVal[0] == -1
      invariant forall p | 1 <= p < 8 :: playerMaxVal[p] == MaxDepth(frame, p, i16 / 2)
    {
      var player := Player(depthFrame16[i16]);
      var realDepth := RealDepth(depthFrame16[i16], depthFrame16[i16 + 1]);
      playerMaxVal[0] := -1;
      if player != 0 && realDepth > playerMaxVal[player] {
        playerMaxVal[player] := realDepth;
      }
      assert (i16 + 2) / 2 - 1 == i16 / 2;
      i16 := i16 + 2;
    }
    result := ResultCodes.Success;
  }

  /** A new depth frame: decode it; the result is always Success. */
  method ProcessNewDepthData(bits: array<bv8>) returns (result: int)
    requires bits.Length % 2 == 0
    ensures result == ResultCodes.Success
  {
    var _, _ := CheckPlayerDepth(bits);
    result := ResultCodes.Success;
  }
}

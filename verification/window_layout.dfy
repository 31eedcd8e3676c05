/** FRAGMENT_SHADER_WINDOW: a window shows its `_textureNbr` input textures
    side by side, `_layout[i]` giving the slot of texture i. Textures that
    share a slot share a frame, so the window is split into as many frames
    as there are distinct slots among the first `_textureNbr` entries. */
module WindowLayout {

  /** The default value of the `_layout` uniform. */
  const DEFAULT_LAYOUT: seq<int> := [0, 1, 2, 3]

  /** The slots used by the first n textures. */
  function Slots(layout: seq<int>, n: nat): set<int>
    requires n <= |layout|
  {
    set i | 0 <= i < n :: layout[i]
  }

  /** The number of entries of s that appear again later. */
  function Repeats(s: seq<int>): (r: nat)
    ensures r <= |s|
  {
    if s == [] then 0 else (if s[0] in s[1..] then 1 else 0) + Repeats(s[1..])
  }

  /** Dropping every entry that appears again later leaves one entry per
      distinct value. */
  lemma {:induction false} RepeatsCountDuplicates(s: seq<int>)
    ensures |s| - Repeats(s) == |set x | x in s|
  {
    if s != [] {
      RepeatsCountDuplicates(s[1..]);
      assert (set x | x in s) == {s[0]} + (set x | x in s[1..]) by {
        assert s == [s[0]] + s[1..];
      }
      if s[0] in s[1..] {
        assert (set x | x in s) == (set x | x in s[1..]);
      } else {
        assert s[0] !in (set x | x in s[1..]);
      }
    }
  }

  /** No entry appears again later exactly when all entries are distinct. */
  lemma {:induction false} NoRepeatsIffDistinct(s: seq<int>)
    ensures Repeats(s) == 0 <==> forall i, j :: 0 <= i < j < |s| ==> s[i] != s[j]
  {
    if s != [] {
      NoRepeatsIffDistinct(s[1..]);
      if Repeats(s) == 0 {
        forall i, j | 0 <= i < j < |s|
          ensures s[i] != s[j]
        {
          if i == 0 {
            assert s[j] == s[1..][j - 1];
          } else {
            assert s[i] == s[1..][i - 1] && s[j] == s[1..][j - 1];
          }
        }
      }
      if forall i, j :: 0 <= i < j < |s| ==> s[i] != s[j] {
        assert s[0] !in s[1..] by {
          forall k | 0 <= k < |s[1..]|
            ensures s[1..][k] != s[0]
          {
            assert s[1..][k] == s[k + 1];
          }
        }
        forall i, j | 0 <= i < j < |s[1..]|
          ensures s[1..][i] != s[1..][j]
        {
          assert s[1..][i] == s[i + 1] && s[1..][j] == s[j + 1];
        }
      }
    }
  }

  /** The set of values of a prefix is the set of slots it uses. */
  lemma SlotsOfPrefix(layout: seq<int>, n: nat)
    requires n <= |layout|
    ensures Slots(layout, n) == set x | x in layout[..n]
  {
    forall x | x in layout[..n]
      ensures x in Slots(layout, n)
    {
      var i :| 0 <= i < n && layout[..n][i] == x;
      assert layout[i] == x;
    }
  }

  /** The number of frames: `_textureNbr`, less one for every texture whose
      slot a later texture also uses. A count of textures at or below zero
      leaves `frames` at that count. */
  method FramesCount(layout: seq<int>, textureNbr: int) returns (frames: real)
    requires textureNbr <= |layout|
    ensures textureNbr <= 0 ==> frames == textureNbr as real
    ensures textureNbr > 0 ==> frames == |Slots(layout, textureNbr)| as real
  {
    frames := textureNbr as real;
    if textureNbr <= 0 {
      return;
    }
    ghost var s := layout[..textureNbr];
    var i := 0;
    while i < textureNbr
      invariant 0 <= i <= textureNbr
      invariant frames == (textureNbr - (Repeats(s) - Repeats(s[i..]))) as real
    {
      var value := layout[i];
      assert s[i..][0] == value && s[i..][1..] == s[i + 1..];
      var j := i + 1;
      while j < textureNbr
        invariant i + 1 <= j <= textureNbr
        invariant forall k :: i + 1 <= k < j ==> layout[k] != value
      {
        if layout[j] == value {
          assert s[i + 1..][j - i - 1] == value;
          frames := frames - 1.0;
          break;
        }
        j := j + 1;
      }
      if j == textureNbr {
        ghost var rest := s[i + 1..];
        assert value !in rest by {
          forall k | 0 <= k < |rest|
            ensures rest[k] != value
          {
            assert rest[k] == layout[i + 1 + k];
          }
        }
      }
      i := i + 1;
    }
    RepeatsCountDuplicates(s);
    SlotsOfPrefix(layout, textureNbr);
  }

  /** With at least one texture there is at least one frame, and never more
      frames than textures. */
  lemma FramesBounded(layout: seq<int>, n: nat)
    requires 0 < n <= |layout|
    ensures 1 <= |Slots(layout, n)| <= n
  {
    assert layout[0] in Slots(layout, n);
    SlotsOfPrefix(layout, n);
    RepeatsCountDuplicates(layout[..n]);
  }

  /** Every texture gets a frame of its own exactly when no two textures
      share a slot. */
  lemma FramesIffDistinct(layout: seq<int>, n: nat)
    requires n <= |layout|
    ensures |Slots(layout, n)| == n <==> forall i, j :: 0 <= i < j < n ==> layout[i] != layout[j]
  {
    SlotsOfPrefix(layout, n);
    RepeatsCountDuplicates(layout[..n]);
    NoRepeatsIffDistinct(layout[..n]);
    assert forall i :: 0 <= i < n ==> layout[..n][i] == layout[i];
  }

  /** The default layout puts each of up to four textures in its own frame. */
  lemma DefaultLayoutOneFramePerTexture(n: nat)
    requires 0 < n <= 4
    ensures |Slots(DEFAULT_LAYOUT, n)| == n
  {
    FramesIffDistinct(DEFAULT_LAYOUT, n);
  }
}

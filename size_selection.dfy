/** Preview-size selection of `Camera2BasicFragment`: the area comparator
    `CompareSizesByArea` and `chooseOptimalSize`, which picks the camera
    output size that best fits the preview surface. */
module SizeSelection {

  import Arith

  /** An `android.util.Size`: one output resolution the camera supports. */
  datatype Size = Size(width: int, height: int)

  predicate NonNegative(s: Size) { s.width >= 0 && s.height >= 0 }

  /** An aspect-ratio pair usable as a divisor: a positive width. */
  predicate ValidRatio(ratio: Size) { ratio.width > 0 && ratio.height >= 0 }

  /** Area, computed on unbounded integers (the source widens to `long`). */
  function Area(s: Size): int { s.width * s.height }

  /** `CompareSizesByArea.compare`: the sign of the exact area difference. */
  function CompareByArea(lhs: Size, rhs: Size): (c: int)
    ensures c == -1 || c == 0 || c == 1
    ensures c < 0 <==> Area(lhs) < Area(rhs)
    ensures c == 0 <==> Area(lhs) == Area(rhs)
    ensures c > 0 <==> Area(lhs) > Area(rhs)
  {
    var diff := lhs.width * lhs.height - rhs.width * rhs.height;
    if diff < 0 then -1 else if diff == 0 then 0 else 1
  }

  /** The comparator is a total preorder, as `Comparator` demands: it is
      antisymmetric in sign and transitive. */
  lemma CompareByAreaIsPreorder(a: Size, b: Size, c: Size)
    ensures CompareByArea(a, b) == -CompareByArea(b, a)
    ensures CompareByArea(a, b) <= 0 && CompareByArea(b, c) <= 0 ==> CompareByArea(a, c) <= 0
  {
  }

  /** `Collections.min(list, new CompareSizesByArea())`: starting from the
      first element, a later element replaces the candidate only when it is
      strictly smaller, so the FIRST element of minimal area is returned. */
  function MinByArea(s: seq<Size>): (m: Size)
    requires |s| > 0
    ensures m in s
    ensures forall i :: 0 <= i < |s| ==> Area(m) <= Area(s[i])
    ensures exists j :: 0 <= j < |s| && s[j] == m && forall i :: 0 <= i < j ==> Area(m) < Area(s[i])
    decreases |s|
  {
    if |s| == 1 then s[0]
    else
      var prefix := s[..|s| - 1];
      var m := MinByArea(prefix);
      assert forall i :: 0 <= i < |prefix| ==> prefix[i] == s[i];
      if CompareByArea(s[|s| - 1], m) < 0 then s[|s| - 1] else m
  }

  /** `Collections.max(list, new CompareSizesByArea())`: the FIRST element of
      maximal area. */
  function MaxByArea(s: seq<Size>): (m: Size)
    requires |s| > 0
    ensures m in s
    ensures forall i :: 0 <= i < |s| ==> Area(s[i]) <= Area(m)
    ensures exists j :: 0 <= j < |s| && s[j] == m && forall i :: 0 <= i < j ==> Area(s[i]) < Area(m)
    decreases |s|
  {
    if |s| == 1 then s[0]
    else
      var prefix := s[..|s| - 1];
      var m := MaxByArea(prefix);
      assert forall i :: 0 <= i < |prefix| ==> prefix[i] == s[i];
      if CompareByArea(s[|s| - 1], m) > 0 then s[|s| - 1] else m
  }

  /** The filter of the selection loop: within the maximum preview size and of
      exactly the aspect ratio, compared by `height == width * h / w`. */
  predicate Eligible(option: Size, maxWidth: int, maxHeight: int, ratio: Size)
    requires ratio.width > 0
  {
    option.width <= maxWidth && option.height <= maxHeight &&
    option.height == option.width * ratio.height / ratio.width
  }

  /** At least as big as the preview surface in both dimensions. */
  predicate Covers(option: Size, targetWidth: int, targetHeight: int)
  {
    option.width >= targetWidth && option.height >= targetHeight
  }

  /** The `bigEnough` list: eligible choices covering the target, in order. */
  function BigEnough(choices: seq<Size>, targetWidth: int, targetHeight: int,
                     maxWidth: int, maxHeight: int, ratio: Size): (r: seq<Size>)
    requires ratio.width > 0
    decreases |choices|
  {
    if |choices| == 0 then []
    else
      var last := choices[|choices| - 1];
      BigEnough(choices[..|choices| - 1], targetWidth, targetHeight, maxWidth, maxHeight, ratio) +
      (if Eligible(last, maxWidth, maxHeight, ratio) && Covers(last, targetWidth, targetHeight)
       then [last] else [])
  }

  /** The `notBigEnough` list: eligible choices not covering the target, in order. */
  function NotBigEnough(choices: seq<Size>, targetWidth: int, targetHeight: int,
                        maxWidth: int, maxHeight: int, ratio: Size): (r: seq<Size>)
    requires ratio.width > 0
    decreases |choices|
  {
    if |choices| == 0 then []
    else
      var last := choices[|choices| - 1];
      NotBigEnough(choices[..|choices| - 1], targetWidth, targetHeight, maxWidth, maxHeight, ratio) +
      (if Eligible(last, maxWidth, maxHeight, ratio) && !Covers(last, targetWidth, targetHeight)
       then [last] else [])
  }

  /** Exactly the eligible covering choices are in `bigEnough`, and exactly the
      eligible non-covering ones in `notBigEnough`. */
  lemma {:induction false} PartitionMembers(choices: seq<Size>, targetWidth: int, targetHeight: int,
                                           maxWidth: int, maxHeight: int, ratio: Size, x: Size)
    requires ratio.width > 0
    ensures x in BigEnough(choices, targetWidth, targetHeight, maxWidth, maxHeight, ratio) <==>
            x in choices && Eligible(x, maxWidth, maxHeight, ratio) && Covers(x, targetWidth, targetHeight)
    ensures x in NotBigEnough(choices, targetWidth, targetHeight, maxWidth, maxHeight, ratio) <==>
            x in choices && Eligible(x, maxWidth, maxHeight, ratio) && !Covers(x, targetWidth, targetHeight)
    decreases |choices|
  {
    if |choices| > 0 {
      var prefix := choices[..|choices| - 1];
      PartitionMembers(prefix, targetWidth, targetHeight, maxWidth, maxHeight, ratio, x);
      assert choices == prefix + [choices[|choices| - 1]];
    }
  }

  /** The size `chooseOptimalSize` returns: the smallest-area covering size if
      there is one, else the largest-area eligible size, else `choices[0]`. */
  function OptimalSize(choices: seq<Size>, targetWidth: int, targetHeight: int,
                       maxWidth: int, maxHeight: int, ratio: Size): Size
    requires |choices| > 0 && ratio.width > 0
  {
    var big := BigEnough(choices, targetWidth, targetHeight, maxWidth, maxHeight, ratio);
    var small := NotBigEnough(choices, targetWidth, targetHeight, maxWidth, maxHeight, ratio);
    if |big| > 0 then MinByArea(big)
    else if |small| > 0 then MaxByArea(small)
    else choices[0]
  }

  /** No choice passes the filter: the case that logs "Couldn't find any
      suitable preview size" and falls back to `choices[0]`. */
  predicate NoSuitableSize(choices: seq<Size>, maxWidth: int, maxHeight: int, ratio: Size)
    requires ratio.width > 0
  {
    forall i :: 0 <= i < |choices| ==> !Eligible(choices[i], maxWidth, maxHeight, ratio)
  }

  /** `chooseOptimalSize`: one pass partitions `choices` into `bigEnough` and
      `notBigEnough`; the result is the minimum of the first by area, or the
      maximum of the second, or `choices[0]` with the diagnostic raised. */
  method ChooseOptimalSize(choices: seq<Size>, textureViewWidth: int, textureViewHeight: int,
                           maxWidth: int, maxHeight: int, aspectRatio: Size)
    returns (optimal: Size, noSuitableSize: bool)
    requires |choices| > 0 && ValidRatio(aspectRatio)
    requires forall i :: 0 <= i < |choices| ==> NonNegative(choices[i])
    ensures optimal == OptimalSize(choices, textureViewWidth, textureViewHeight, maxWidth, maxHeight, aspectRatio)
    ensures noSuitableSize == NoSuitableSize(choices, maxWidth, maxHeight, aspectRatio)
    ensures optimal in choices
    ensures noSuitableSize ==> optimal == choices[0]
    ensures !noSuitableSize ==> Eligible(optimal, maxWidth, maxHeight, aspectRatio)
  {
    var bigEnough: seq<Size> := [];
    var notBigEnough: seq<Size> := [];
    var w := aspectRatio.width;
    var h := aspectRatio.height;
    for i := 0 to |choices|
      invariant bigEnough == BigEnough(choices[..i], textureViewWidth, textureViewHeight, maxWidth, maxHeight, aspectRatio)
      invariant notBigEnough == NotBigEnough(choices[..i], textureViewWidth, textureViewHeight, maxWidth, maxHeight, aspectRatio)
    {
      var option := choices[i];
      assert choices[..i + 1][..i] == choices[..i];
      if option.width <= maxWidth && option.height <= maxHeight &&
         option.height == option.width * h / w {
        if option.width >= textureViewWidth && option.height >= textureViewHeight {
          bigEnough := bigEnough + [option];
        } else {
          notBigEnough := notBigEnough + [option];
        }
      }
    }
    assert choices[..|choices|] == choices;
    if |bigEnough| > 0 {
      optimal := MinByArea(bigEnough);
    } else if |notBigEnough| > 0 {
      optimal := MaxByArea(notBigEnough);
    } else {
      optimal := choices[0];
    }
    noSuitableSize := |bigEnough| == 0 && |notBigEnough| == 0;
    PartitionMembers(choices, textureViewWidth, textureViewHeight, maxWidth, maxHeight, aspectRatio, optimal);
    if noSuitableSize {
      forall i | 0 <= i < |choices|
        ensures !Eligible(choices[i], maxWidth, maxHeight, aspectRatio)
      {
        PartitionMembers(choices, textureViewWidth, textureViewHeight, maxWidth, maxHeight, aspectRatio, choices[i]);
      }
    } else {
      var x := if |bigEnough| > 0 then bigEnough[0] else notBigEnough[0];
      PartitionMembers(choices, textureViewWidth, textureViewHeight, maxWidth, maxHeight, aspectRatio, x);
    }
  }

  /** The three outcomes of the selection, stated about the choices
      themselves: a covering choice exists -> a covering eligible choice of
      minimal area among those; else an eligible one exists -> an eligible
      choice of maximal area; else the first choice. */
  lemma OptimalSizeCases(choices: seq<Size>, targetWidth: int, targetHeight: int,
                         maxWidth: int, maxHeight: int, ratio: Size)
    requires |choices| > 0 && ratio.width > 0
    ensures var r := OptimalSize(choices, targetWidth, targetHeight, maxWidth, maxHeight, ratio);
      && r in choices
      && ((exists c :: c in choices && Eligible(c, maxWidth, maxHeight, ratio) && Covers(c, targetWidth, targetHeight)) ==>
            && Eligible(r, maxWidth, maxHeight, ratio) && Covers(r, targetWidth, targetHeight)
            && forall c :: c in choices && Eligible(c, maxWidth, maxHeight, ratio) && Covers(c, targetWidth, targetHeight) ==>
                 Area(r) <= Area(c))
      && ((forall c :: c in choices && Eligible(c, maxWidth, maxHeight, ratio) ==> !Covers(c, targetWidth, targetHeight)) &&
          (exists c :: c in choices && Eligible(c, maxWidth, maxHeight, ratio)) ==>
            && Eligible(r, maxWidth, maxHeight, ratio)
            && forall c :: c in choices && Eligible(c, maxWidth, maxHeight, ratio) ==> Area(c) <= Area(r))
      && ((forall c :: c in choices ==> !Eligible(c, maxWidth, maxHeight, ratio)) ==> r == choices[0])
  {
    var big := BigEnough(choices, targetWidth, targetHeight, maxWidth, maxHeight, ratio);
    var small := NotBigEnough(choices, targetWidth, targetHeight, maxWidth, maxHeight, ratio);
    var r := OptimalSize(choices, targetWidth, targetHeight, maxWidth, maxHeight, ratio);
    PartitionMembers(choices, targetWidth, targetHeight, maxWidth, maxHeight, ratio, r);
    forall c | c in choices
      ensures c in big <==> Eligible(c, maxWidth, maxHeight, ratio) && Covers(c, targetWidth, targetHeight)
      ensures c in small <==> Eligible(c, maxWidth, maxHeight, ratio) && !Covers(c, targetWidth, targetHeight)
    {
      PartitionMembers(choices, targetWidth, targetHeight, maxWidth, maxHeight, ratio, c);
    }
    if |big| > 0 {
      forall c | c in big ensures Area(r) <= Area(c) {
        var i :| 0 <= i < |big| && big[i] == c;
      }
    } else if |small| > 0 {
      assert small[0] in small;
      forall c | c in small ensures Area(c) <= Area(r) {
        var i :| 0 <= i < |small| && small[i] == c;
      }
    }
  }

  /** Whenever the result is not the `choices[0]` fallback of an empty filter,
      it fits inside the maximum preview size. */
  lemma OptimalSizeWithinBounds(choices: seq<Size>, targetWidth: int, targetHeight: int,
                                maxWidth: int, maxHeight: int, ratio: Size)
    requires |choices| > 0 && ratio.width > 0
    requires !NoSuitableSize(choices, maxWidth, maxHeight, ratio)
    ensures var r := OptimalSize(choices, targetWidth, targetHeight, maxWidth, maxHeight, ratio);
      r.width <= maxWidth && r.height <= maxHeight
  {
    var i :| 0 <= i < |choices| && Eligible(choices[i], maxWidth, maxHeight, ratio);
    PartitionMembers(choices, targetWidth, targetHeight, maxWidth, maxHeight, ratio, choices[i]);
    var r := OptimalSize(choices, targetWidth, targetHeight, maxWidth, maxHeight, ratio);
    PartitionMembers(choices, targetWidth, targetHeight, maxWidth, maxHeight, ratio, r);
  }

  /** The ratio filter depends only on the ratio: (k*w, k*h) admits the same
      sizes as (w, h). */
  lemma EligibleScaleInvariant(option: Size, maxWidth: int, maxHeight: int, ratio: Size, k: int)
    requires ValidRatio(ratio) && NonNegative(option) && k > 0
    ensures Eligible(option, maxWidth, maxHeight, Size(k * ratio.width, k * ratio.height)) ==
            Eligible(option, maxWidth, maxHeight, ratio)
  {
    var a := option.width * ratio.height;
    assert a >= 0;
    Arith.DivCancel(a, ratio.width, k);
    assert option.width * (k * ratio.height) == a * k;
    assert k * ratio.width == ratio.width * k;
  }

  /** Scaling the aspect-ratio pair leaves both partitions unchanged. */
  lemma {:induction false} PartitionScaleInvariant(choices: seq<Size>, targetWidth: int, targetHeight: int,
                                                  maxWidth: int, maxHeight: int, ratio: Size, k: int)
    requires ValidRatio(ratio) && k > 0
    requires forall i :: 0 <= i < |choices| ==> NonNegative(choices[i])
    ensures var scaled := Size(k * ratio.width, k * ratio.height);
      && BigEnough(choices, targetWidth, targetHeight, maxWidth, maxHeight, scaled) ==
         BigEnough(choices, targetWidth, targetHeight, maxWidth, maxHeight, ratio)
      && NotBigEnough(choices, targetWidth, targetHeight, maxWidth, maxHeight, scaled) ==
         NotBigEnough(choices, targetWidth, targetHeight, maxWidth, maxHeight, ratio)
    decreases |choices|
  {
    var scaled := Size(k * ratio.width, k * ratio.height);
    assert scaled.width > 0 by { Arith.MulAtLeast(k, ratio.width); }
    if |choices| > 0 {
      PartitionScaleInvariant(choices[..|choices| - 1], targetWidth, targetHeight, maxWidth, maxHeight, ratio, k);
      EligibleScaleInvariant(choices[|choices| - 1], maxWidth, maxHeight, ratio, k);
    }
  }

  /** Scale invariance: `chooseOptimalSize` with ratio (k*w, k*h)
      returns the same size as with (w, h), e.g. (4,6) and (2,3). */
  lemma OptimalSizeScaleInvariant(choices: seq<Size>, targetWidth: int, targetHeight: int,
                                  maxWidth: int, maxHeight: int, ratio: Size, k: int)
    requires |choices| > 0 && ValidRatio(ratio) && k > 0
    requires forall i :: 0 <= i < |choices| ==> NonNegative(choices[i])
    ensures k * ratio.width > 0
    ensures OptimalSize(choices, targetWidth, targetHeight, maxWidth, maxHeight, Size(k * ratio.width, k * ratio.height)) ==
            OptimalSize(choices, targetWidth, targetHeight, maxWidth, maxHeight, ratio)
  {
    Arith.MulAtLeast(k, ratio.width);
    PartitionScaleInvariant(choices, targetWidth, targetHeight, maxWidth, maxHeight, ratio, k);
  }

  /** The smallest covering size wins over list order. */
  lemma SmallestCoveringExample()
    ensures OptimalSize([Size(100, 150), Size(200, 300), Size(50, 75)], 120, 180, 1000, 1000, Size(2, 3)) ==
            Size(200, 300)
  {
    var choices := [Size(100, 150), Size(200, 300), Size(50, 75)];
    var r := Size(2, 3);
    assert choices[..2][..1] == [Size(100, 150)] && [Size(100, 150)][..0] == [];
    assert choices[..2] == [Size(100, 150), Size(200, 300)];
    assert BigEnough([Size(100, 150)], 120, 180, 1000, 1000, r) == [];
    assert BigEnough(choices[..2], 120, 180, 1000, 1000, r) == [Size(200, 300)];
    assert BigEnough(choices, 120, 180, 1000, 1000, r) == [Size(200, 300)];
  }

  /** With nothing covering the target, the largest eligible size wins, not the first. */
  lemma LargestBelowTargetExample()
    ensures OptimalSize([Size(100, 150), Size(200, 300), Size(50, 75)], 400, 600, 1000, 1000, Size(2, 3)) ==
            Size(200, 300)
  {
    var choices := [Size(100, 150), Size(200, 300), Size(50, 75)];
    var r := Size(2, 3);
    assert choices[..2][..1] == [Size(100, 150)] && [Size(100, 150)][..0] == [];
    assert choices[..2] == [Size(100, 150), Size(200, 300)];
    assert BigEnough([Size(100, 150)], 400, 600, 1000, 1000, r) == [];
    assert BigEnough(choices[..2], 400, 600, 1000, 1000, r) == [];
    assert BigEnough(choices, 400, 600, 1000, 1000, r) == [];
    assert NotBigEnough([Size(100, 150)], 400, 600, 1000, 1000, r) == [Size(100, 150)];
    assert NotBigEnough(choices[..2], 400, 600, 1000, 1000, r) == [Size(100, 150), Size(200, 300)];
    var small := [Size(100, 150), Size(200, 300), Size(50, 75)];
    assert NotBigEnough(choices, 400, 600, 1000, 1000, r) == small;
    assert small[..2][..1] == [Size(100, 150)];
    assert MaxByArea(small[..2]) == Size(200, 300);
  }
}

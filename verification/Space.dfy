/** Points in space and the extremes of their coordinates. */
module Space {

  datatype Vec3 = Vec3(x: real, y: real, z: real)

  function Xs(ps: seq<Vec3>): (r: seq<real>)
    ensures |r| == |ps|
  {
    seq(|ps|, i requires 0 <= i < |ps| => ps[i].x)
  }

  function Ys(ps: seq<Vec3>): (r: seq<real>)
    ensures |r| == |ps|
  {
    seq(|ps|, i requires 0 <= i < |ps| => ps[i].y)
  }

  function Zs(ps: seq<Vec3>): (r: seq<real>)
    ensures |r| == |ps|
  {
    seq(|ps|, i requires 0 <= i < |ps| => ps[i].z)
  }

  function Min(s: seq<real>): real
    requires s != []
  {
    if |s| == 1 then s[0]
    else
      var rest := Min(s[..|s| - 1]);
      if s[|s| - 1] < rest then s[|s| - 1] else rest
  }

  function Max(s: seq<real>): real
    requires s != []
  {
    if |s| == 1 then s[0]
    else
      var rest := Max(s[..|s| - 1]);
      if s[|s| - 1] > rest then s[|s| - 1] else rest
  }

  lemma {:induction false} MinMaxBound(s: seq<real>, i: nat)
    requires i < |s|
    ensures Min(s) <= s[i] <= Max(s)
  {
    if i < |s| - 1 {
      MinMaxBound(s[..|s| - 1], i);
    } else if i > 0 {
      MinMaxBound(s[..|s| - 1], i - 1);
    }
  }

  lemma {:induction false} MinMaxAttained(s: seq<real>) returns (lo: nat, hi: nat)
    requires s != []
    ensures lo < |s| && hi < |s| && s[lo] == Min(s) && s[hi] == Max(s)
  {
    lo, hi := 0, 0;
    if |s| > 1 {
      var n := |s| - 1;
      lo, hi := MinMaxAttained(s[..n]);
      if s[n] == Min(s) { lo := n; }
      if s[n] == Max(s) { hi := n; }
    }
  }
}

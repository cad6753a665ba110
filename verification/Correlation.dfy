/** The scatter-plot correlation: Pearson's coefficient from five running sums,
    over exact reals.

    Lemmas about plain reals carry the algebra; the lemmas about series only hand
    them their values, and hide the definitions they do not unfold. */
module Correlation {
  import opened Options

  type Series = seq<real>

  function Front(us: Series): (r: Series)
    requires us != []
    ensures |r| == |us| - 1
  {
    us[..|us| - 1]
  }

  function Last(us: Series): real
    requires us != []
  {
    us[|us| - 1]
  }

  // ---------- multiplication ----------

  /** x times y.  Lemmas about series hide it and work with the products as given;
      only lemmas about plain numbers look inside. */
  function Times(x: real, y: real): real {
    x * y
  }

  // ---------- sums and the covariance form ----------

  function Sum(us: Series): real {
    if us == [] then 0.0 else Sum(Front(us)) + Last(us)
  }

  function Dot(us: Series, vs: Series): real
    requires |us| == |vs|
  {
    if us == [] then 0.0 else Dot(Front(us), Front(vs)) + Times(Last(us), Last(vs))
  }

  /** The products of the distances to u and to v, added up. */
  function Cross(us: Series, vs: Series, u: real, v: real): real
    requires |us| == |vs|
  {
    if us == [] then 0.0 else Cross(Front(us), Front(vs), u, v) + Times(Last(us) - u, Last(vs) - v)
  }

  /** The covariance form: (u_i - u_j) * (v_i - v_j), added up over all pairs. */
  function Cov(us: Series, vs: Series): real
    requires |us| == |vs|
  {
    if us == [] then 0.0 else Cov(Front(us), Front(vs)) + Cross(Front(us), Front(vs), Last(us), Last(vs))
  }

  lemma CrossStep(d: real, s: real, t: real, n: real, u: real, v: real, x: real, y: real)
    ensures (d - Times(u, t) - Times(v, s) + Times(n, Times(u, v))) + Times(x - u, y - v)
      == (d + Times(x, y)) - Times(u, t + y) - Times(v, s + x) + Times(n + 1.0, Times(u, v))
  {
  }

  lemma NoCross(u: real, v: real)
    ensures 0.0 - Times(u, 0.0) - Times(v, 0.0) + Times(0.0, Times(u, v)) == 0.0
  {
  }

  lemma {:induction false} CrossFromSums(us: Series, vs: Series, u: real, v: real)
    requires |us| == |vs|
    ensures Cross(us, vs, u, v) == Dot(us, vs) - Times(u, Sum(vs)) - Times(v, Sum(us)) +
      Times(|us| as real, Times(u, v))
  {
    hide Times;
    if us == [] {
      NoCross(u, v);
    } else {
      CrossFromSums(Front(us), Front(vs), u, v);
      CrossStep(Dot(Front(us), Front(vs)), Sum(Front(us)), Sum(Front(vs)), |Front(us)| as real, u, v, Last(us),
        Last(vs));
    }
  }

  lemma CovStep(n: real, d: real, s: real, t: real, x: real, y: real)
    ensures (Times(n, d) - Times(s, t)) + (d - Times(x, t) - Times(y, s) + Times(n, Times(x, y)))
      == Times(n + 1.0, d + Times(x, y)) - Times(s + x, t + y)
  {
  }

  lemma NoCov()
    ensures Times(0.0, 0.0) == 0.0
  {
  }

  /** The formula on running sums computes the covariance form: n times the sum of
      products minus the product of the sums. */
  lemma {:induction false} CovFromSums(us: Series, vs: Series)
    requires |us| == |vs|
    ensures Cov(us, vs) == Times(|us| as real, Dot(us, vs)) - Times(Sum(us), Sum(vs))
  {
    hide Times, Cross;
    if us == [] {
      NoCov();
    } else {
      CovFromSums(Front(us), Front(vs));
      CrossFromSums(Front(us), Front(vs), Last(us), Last(vs));
      CovStep(|Front(us)| as real, Dot(Front(us), Front(vs)), Sum(Front(us)), Sum(Front(vs)), Last(us), Last(vs));
    }
  }

  // ---------- the form is bilinear ----------

  /** a*us + b*vs */
  function Lin(a: real, us: Series, b: real, vs: Series): (r: Series)
    requires |us| == |vs|
    ensures |r| == |us|
  {
    seq(|us|, i requires 0 <= i < |us| => Times(a, us[i]) + Times(b, vs[i]))
  }

  lemma LinParts(a: real, us: Series, b: real, vs: Series)
    requires |us| == |vs| > 0
    ensures Front(Lin(a, us, b, vs)) == Lin(a, Front(us), b, Front(vs))
    ensures Last(Lin(a, us, b, vs)) == Times(a, Last(us)) + Times(b, Last(vs))
  {
    hide Times;
    var r, f := Front(Lin(a, us, b, vs)), Lin(a, Front(us), b, Front(vs));
    forall i | 0 <= i < |f| ensures r[i] == f[i] {
      assert Front(us)[i] == us[i] && Front(vs)[i] == vs[i];
    }
  }

  lemma Nothing(a: real)
    ensures Times(a, 0.0) == 0.0 == Times(0.0, a)
  {
  }

  lemma Distribute(a: real, x: real, y: real)
    ensures Times(a, x + y) == Times(a, x) + Times(a, y)
  {
  }

  lemma CrossLinStep(a: real, x: real, u: real, b: real, y: real, v: real, k: real)
    ensures Times((Times(a, x) + Times(b, y)) - (Times(a, u) + Times(b, v)), k)
      == Times(a, Times(x - u, k)) + Times(b, Times(y - v, k))
  {
  }

  lemma {:induction false} CrossLin(a: real, us: Series, b: real, vs: Series, ws: Series, u: real, v: real, w: real)
    requires |us| == |vs| == |ws|
    ensures Cross(Lin(a, us, b, vs), ws, Times(a, u) + Times(b, v), w)
      == Times(a, Cross(us, ws, u, w)) + Times(b, Cross(vs, ws, v, w))
  {
    hide Times, Lin;
    if us == [] {
      Nothing(a);
      Nothing(b);
    } else {
      LinParts(a, us, b, vs);
      CrossLin(a, Front(us), b, Front(vs), Front(ws), u, v, w);
      CrossLinStep(a, Last(us), u, b, Last(vs), v, Last(ws) - w);
      Distribute(a, Cross(Front(us), Front(ws), u, w), Times(Last(us) - u, Last(ws) - w));
      Distribute(b, Cross(Front(vs), Front(ws), v, w), Times(Last(vs) - v, Last(ws) - w));
    }
  }

  /** The form is linear ... */
  lemma {:induction false} CovLin(a: real, us: Series, b: real, vs: Series, ws: Series)
    requires |us| == |vs| == |ws|
    ensures Cov(Lin(a, us, b, vs), ws) == Times(a, Cov(us, ws)) + Times(b, Cov(vs, ws))
  {
    hide Times, Cross, Lin;
    if us == [] {
      Nothing(a);
      Nothing(b);
    } else {
      LinParts(a, us, b, vs);
      CovLin(a, Front(us), b, Front(vs), Front(ws));
      CrossLin(a, Front(us), b, Front(vs), Front(ws), Last(us), Last(vs), Last(ws));
      Distribute(a, Cov(Front(us), Front(ws)), Cross(Front(us), Front(ws), Last(us), Last(ws)));
      Distribute(b, Cov(Front(vs), Front(ws)), Cross(Front(vs), Front(ws), Last(vs), Last(ws)));
    }
  }

  lemma TimesSym(x: real, y: real)
    ensures Times(x, y) == Times(y, x)
  {
  }

  lemma {:induction false} CrossSym(us: Series, vs: Series, u: real, v: real)
    requires |us| == |vs|
    ensures Cross(us, vs, u, v) == Cross(vs, us, v, u)
  {
    hide Times;
    if us != [] {
      CrossSym(Front(us), Front(vs), u, v);
      TimesSym(Last(us) - u, Last(vs) - v);
    }
  }

  /** ... symmetric ... */
  lemma {:induction false} CovSym(us: Series, vs: Series)
    requires |us| == |vs|
    ensures Cov(us, vs) == Cov(vs, us)
  {
    hide Cross;
    if us != [] {
      CovSym(Front(us), Front(vs));
      CrossSym(Front(us), Front(vs), Last(us), Last(vs));
    }
  }

  function Ones(n: nat): (r: Series)
    ensures |r| == n
  {
    seq(n, _ => 1.0)
  }

  lemma OnesParts(n: nat)
    requires n > 0
    ensures Front(Ones(n)) == Ones(n - 1) && Last(Ones(n)) == 1.0
  {
  }

  lemma {:induction false} CrossOnes(us: Series, u: real)
    ensures Cross(Ones(|us|), us, 1.0, u) == 0.0
  {
    hide Times;
    if us != [] {
      OnesParts(|us|);
      CrossOnes(Front(us), u);
      Nothing(Last(us) - u);
    }
  }

  /** ... blind to constants ... */
  lemma {:induction false} CovOnes(us: Series)
    ensures Cov(Ones(|us|), us) == 0.0
  {
    hide Cross;
    if us != [] {
      OnesParts(|us|);
      CovOnes(Front(us));
      CrossOnes(Front(us), Last(us));
    }
  }

  // ---------- the form is positive ----------

  lemma PositiveProduct(a: real, b: real)
    requires (a > 0.0 && b > 0.0) || (a < 0.0 && b < 0.0)
    ensures Times(a, b) > 0.0
  {
  }

  lemma Square(a: real)
    ensures a != 0.0 ==> Times(a, a) > 0.0
    ensures a == 0.0 ==> Times(a, a) == 0.0
  {
    hide Times;
    if a != 0.0 { PositiveProduct(a, a); } else { Nothing(a); }
  }

  ghost predicate AllAre(us: Series, a: real) {
    forall i :: 0 <= i < |us| ==> us[i] == a
  }

  ghost predicate Constant(us: Series) {
    forall i, j :: 0 <= i < |us| && 0 <= j < |us| ==> us[i] == us[j]
  }

  lemma AllAreParts(us: Series, a: real)
    requires us != []
    ensures AllAre(us, a) <==> AllAre(Front(us), a) && Last(us) == a
  {
    if AllAre(us, a) {
      forall i | 0 <= i < |Front(us)| ensures Front(us)[i] == a { assert us[i] == a; }
    } else if AllAre(Front(us), a) && Last(us) == a {
      forall i | 0 <= i < |us| ensures us[i] == a {
        if i < |us| - 1 { assert Front(us)[i] == a; }
      }
    }
  }

  lemma ConstantIsAllLast(us: Series)
    requires us != []
    ensures Constant(us) <==> AllAre(us, Last(us))
  {
  }

  lemma ConstantParts(us: Series)
    requires us != []
    ensures Constant(us) <==> AllAre(Front(us), Last(us))
    ensures Constant(us) ==> Constant(Front(us))
  {
    ConstantIsAllLast(us);
    AllAreParts(us, Last(us));
  }

  lemma {:induction false} CrossNonNegative(us: Series, a: real)
    ensures Cross(us, us, a, a) >= 0.0
    ensures Cross(us, us, a, a) == 0.0 <==> AllAre(us, a)
  {
    hide Times;
    if us != [] {
      CrossNonNegative(Front(us), a);
      AllAreParts(us, a);
      Square(Last(us) - a);
    }
  }

  /** ... and positive: never negative, and zero only on a constant series. */
  lemma {:induction false} CovNonNegative(us: Series)
    ensures Cov(us, us) >= 0.0
    ensures Cov(us, us) == 0.0 <==> Constant(us)
  {
    hide Cross;
    if us != [] {
      CovNonNegative(Front(us));
      CrossNonNegative(Front(us), Last(us));
      ConstantParts(us);
    }
  }

  // ---------- Cauchy-Schwarz ----------

  /** The form on a combination of two series. */
  lemma {:induction false} CovMix(a: real, us: Series, b: real, vs: Series)
    requires |us| == |vs|
    ensures var m := Lin(a, us, b, vs);
      Cov(m, m) == Times(a, Times(a, Cov(us, us)) + Times(b, Cov(us, vs))) +
        Times(b, Times(a, Cov(us, vs)) + Times(b, Cov(vs, vs)))
  {
    hide Cov, Lin, Times;
    var m := Lin(a, us, b, vs);
    CovLin(a, us, b, vs, m);
    CovLin(a, us, b, vs, us);
    CovLin(a, us, b, vs, vs);
    CovSym(us, m);
    CovSym(vs, m);
    CovSym(us, vs);
  }

  /** The combination of both axes that is constant when the points are on a line. */
  function Residual(us: Series, vs: Series): (r: Series)
    requires |us| == |vs|
    ensures |r| == |us|
  {
    Lin(Cov(vs, vs), us, -Cov(us, vs), vs)
  }

  lemma ResidualFactor(vx: real, vy: real, n: real)
    ensures Times(vy, Times(vy, vx) + Times(-n, n)) + Times(-n, Times(vy, n) + Times(-n, vy))
      == Times(vy, Times(vx, vy) - Times(n, n))
  {
  }

  lemma NegativeProduct(a: real, b: real)
    requires a > 0.0 && b < 0.0
    ensures Times(a, b) < 0.0
  {
  }

  lemma SignOfProduct(a: real, b: real)
    requires a > 0.0
    ensures Times(a, b) >= 0.0 <==> b >= 0.0
    ensures Times(a, b) == 0.0 <==> b == 0.0
  {
    hide Times;
    if b > 0.0 { PositiveProduct(a, b); } else if b < 0.0 { NegativeProduct(a, b); } else { Nothing(a); }
  }

  lemma {:induction false} CauchySchwarzVarying(us: Series, vs: Series)
    requires |us| == |vs| && Cov(vs, vs) > 0.0
    ensures Times(Cov(us, vs), Cov(us, vs)) <= Times(Cov(us, us), Cov(vs, vs))
    ensures Times(Cov(us, vs), Cov(us, vs)) == Times(Cov(us, us), Cov(vs, vs)) <==> Constant(Residual(us, vs))
  {
    hide Cov, Lin, Times;
    var vx, vy, n := Cov(us, us), Cov(vs, vs), Cov(us, vs);
    CovMix(vy, us, -n, vs);
    CovNonNegative(Residual(us, vs));
    ResidualFactor(vx, vy, n);
    SignOfProduct(vy, Times(vx, vy) - Times(n, n));
  }

  lemma NegativeMix(vx: real, n: real)
    requires n != 0.0
    ensures var b := -(vx + 1.0) / (2.0 * n);
      Times(1.0, Times(1.0, vx) + Times(b, n)) + Times(b, Times(1.0, n) + Times(b, 0.0)) == -1.0
  {
  }

  /** A constant axis has no covariance with anything. */
  lemma {:induction false} CauchySchwarzConstant(us: Series, vs: Series)
    requires |us| == |vs| && Cov(vs, vs) == 0.0
    ensures Cov(us, vs) == 0.0
  {
    hide Cov, Lin, Times;
    var vx, n := Cov(us, us), Cov(us, vs);
    if n != 0.0 {
      NegativeMix(vx, n);
      MixNonNegative(us, vs, -(vx + 1.0) / (2.0 * n));
    }
  }

  lemma {:induction false} MixNonNegative(us: Series, vs: Series, b: real)
    requires |us| == |vs| && Cov(vs, vs) == 0.0
    ensures Times(1.0, Times(1.0, Cov(us, us)) + Times(b, Cov(us, vs))) +
      Times(b, Times(1.0, Cov(us, vs)) + Times(b, 0.0)) >= 0.0
  {
    hide Cov, Lin, Times;
    CovMix(1.0, us, b, vs);
    CovNonNegative(Lin(1.0, us, b, vs));
  }

  /** Cauchy-Schwarz for the running sums, with its equality case. */
  lemma {:induction false} CauchySchwarz(us: Series, vs: Series)
    requires |us| == |vs|
    ensures Times(Cov(us, vs), Cov(us, vs)) <= Times(Cov(us, us), Cov(vs, vs))
    ensures Cov(vs, vs) != 0.0 ==>
      (Times(Cov(us, vs), Cov(us, vs)) == Times(Cov(us, us), Cov(vs, vs)) <==> Constant(Residual(us, vs)))
  {
    hide Cov, Lin, Times, Residual;
    CovNonNegative(vs);
    if Cov(vs, vs) == 0.0 {
      CauchySchwarzConstant(us, vs);
      Nothing(0.0);
      Nothing(Cov(us, us));
    } else {
      CauchySchwarzVarying(us, vs);
    }
  }

  // ---------- the coefficient ----------

  /** r is the non-negative square root of v. */
  predicate IsRoot(r: real, v: real) {
    r >= 0.0 && Times(r, r) == v
  }

  /** num / den, or 0 when the denominator vanishes. */
  function Coefficient(num: real, den: real): real {
    if den != 0.0 then num / den else 0.0
  }

  lemma SquareGap(a: real, b: real)
    ensures Times(b - a, b + a) == Times(b, b) - Times(a, a)
  {
  }

  lemma SquareGrows(a: real, b: real)
    requires 0.0 <= a < b
    ensures Times(a, a) < Times(b, b)
  {
    hide Times;
    PositiveProduct(b - a, b + a);
    SquareGap(a, b);
  }

  lemma RootUnique(r: real, r': real, v: real)
    requires IsRoot(r, v) && IsRoot(r', v)
    ensures r == r'
  {
    hide Times;
    if r < r' {
      SquareGrows(r, r');
    } else if r' < r {
      SquareGrows(r', r);
    }
  }

  lemma Ratio(num: real, den: real)
    requires den != 0.0
    ensures Times(num / den, den) == num
  {
  }

  lemma ProductOfSquares(c: real, d: real)
    ensures Times(Times(c, c), Times(d, d)) == Times(Times(c, d), Times(c, d))
  {
  }

  lemma OneSquared(c: real)
    ensures Times(1.0, 1.0) == 1.0 && Times(-c, -c) == Times(c, c) && Times(1.0, c) == c
  {
  }

  lemma Within(c: real)
    requires Times(c, c) <= 1.0
    ensures -1.0 <= c <= 1.0
  {
    hide Times;
    OneSquared(c);
    if c > 1.0 {
      SquareGrows(1.0, c);
    } else if c < -1.0 {
      SquareGrows(1.0, -c);
    }
  }

  lemma DistributeRight(x: real, y: real, k: real)
    ensures Times(x - y, k) == Times(x, k) - Times(y, k)
  {
  }

  lemma RatioWithinOne(num: real, den: real)
    requires den != 0.0 && Times(num, num) <= Times(den, den)
    ensures -1.0 <= num / den <= 1.0
    ensures Times(num / den, num / den) == 1.0 <==> Times(num, num) == Times(den, den)
  {
    hide Times;
    var c := num / den;
    var p, d := Times(c, c), Times(den, den);
    Ratio(num, den);
    ProductOfSquares(c, den);
    Square(den);
    OneSquared(d);
    DistributeRight(1.0, p, d);
    TimesSym(1.0 - p, d);
    SignOfProduct(d, 1.0 - p);
    Within(c);
  }

  /** The square root is only ever taken of a non-negative number. */
  lemma {:induction false} ArgumentNonNegative(us: Series, vs: Series)
    requires |us| == |vs|
    ensures Times(Cov(us, us), Cov(vs, vs)) >= 0.0
  {
    hide Cov, Times;
    CauchySchwarz(us, vs);
    Square(Cov(us, vs));
  }

  lemma RootZero(den: real, a: real, b: real)
    requires IsRoot(den, Times(a, b)) && a >= 0.0 && b >= 0.0
    ensures den == 0.0 <==> a == 0.0 || b == 0.0
  {
    hide Times;
    Square(den);
    if a == 0.0 || b == 0.0 {
      Nothing(a);
      Nothing(b);
    } else {
      PositiveProduct(a, b);
    }
  }

  /** The coefficient lies between -1 and 1; the denominator vanishes exactly when an
      axis is constant; and the coefficient is 1 or -1 exactly when both axes vary and
      the points lie on a line. */
  lemma {:induction false} CoefficientBounds(us: Series, vs: Series, den: real)
    requires |us| == |vs| && IsRoot(den, Times(Cov(us, us), Cov(vs, vs)))
    ensures -1.0 <= Coefficient(Cov(us, vs), den) <= 1.0
    ensures den == 0.0 <==> Constant(us) || Constant(vs)
    ensures Times(Coefficient(Cov(us, vs), den), Coefficient(Cov(us, vs), den)) == 1.0 <==>
      !Constant(us) && !Constant(vs) && Constant(Residual(us, vs))
  {
    hide Cov, Lin, Residual, Times;
    CauchySchwarz(us, vs);
    CovNonNegative(us);
    CovNonNegative(vs);
    RootZero(den, Cov(us, us), Cov(vs, vs));
    if den != 0.0 { RatioWithinOne(Cov(us, vs), den); } else { Nothing(0.0); }
  }

  // ---------- units ----------

  /** The same series in other units: a*u + b. */
  function Rescale(us: Series, a: real, b: real): (r: Series)
    ensures |r| == |us|
  {
    Lin(a, us, b, Ones(|us|))
  }

  lemma {:induction false} CovRescale(us: Series, a: real, b: real, ws: Series)
    requires |us| == |ws|
    ensures Cov(Rescale(us, a, b), ws) == Times(a, Cov(us, ws))
  {
    hide Cov, Lin, Ones, Times;
    CovLin(a, us, b, Ones(|us|), ws);
    CovOnes(ws);
    Nothing(b);
  }

  lemma {:induction false} CovRescaleBoth(us: Series, a: real, b: real, vs: Series, c: real, d: real)
    requires |us| == |vs|
    ensures Cov(Rescale(us, a, b), Rescale(vs, c, d)) == Times(a, Times(c, Cov(us, vs)))
  {
    hide Cov, Rescale, Times;
    CovRescale(us, a, b, Rescale(vs, c, d));
    CovSym(us, Rescale(vs, c, d));
    CovRescale(vs, c, d, us);
    CovSym(us, vs);
  }

  lemma Regroup(a: real, c: real, den: real)
    ensures Times(Times(a, Times(c, den)), Times(a, Times(c, den))) ==
      Times(Times(Times(a, a), Times(c, c)), Times(den, den))
  {
  }

  lemma RegroupVariances(a: real, c: real, vx: real, vy: real)
    ensures Times(Times(a, Times(a, vx)), Times(c, Times(c, vy))) ==
      Times(Times(Times(a, a), Times(c, c)), Times(vx, vy))
  {
  }

  lemma RootScales(den: real, den': real, a: real, c: real, vx: real, vy: real)
    requires a > 0.0 && c > 0.0 && IsRoot(den, Times(vx, vy))
    requires IsRoot(den', Times(Times(a, Times(a, vx)), Times(c, Times(c, vy))))
    ensures den' == Times(a, Times(c, den))
  {
    hide Times;
    Regroup(a, c, den);
    RegroupVariances(a, c, vx, vy);
    SignOfProduct(c, den);
    SignOfProduct(a, Times(c, den));
    RootUnique(den', Times(a, Times(c, den)), Times(Times(a, Times(a, vx)), Times(c, Times(c, vy))));
  }

  lemma TimesAssoc(a: real, b: real, c: real)
    ensures Times(a, Times(b, c)) == Times(b, Times(a, c))
  {
  }

  lemma DivideBack(c: real, d: real, n: real)
    requires d != 0.0 && Times(c, d) == n
    ensures n / d == c
  {
  }

  lemma RatioScales(num: real, den: real, k: real)
    requires k > 0.0
    ensures Coefficient(Times(k, num), Times(k, den)) == Coefficient(num, den)
  {
    hide Times;
    SignOfProduct(k, den);
    if den != 0.0 {
      var c := num / den;
      Ratio(num, den);
      TimesAssoc(c, k, den);
      DivideBack(c, Times(k, den), Times(k, num));
    }
  }

  /** The coefficient does not depend on the units: a positive affine change of
      either axis leaves it alone. */
  lemma {:induction false} CoefficientInvariant(us: Series, vs: Series, den: real, den': real, a: real, b: real,
      c: real, d: real)
    requires |us| == |vs| && a > 0.0 && c > 0.0
    requires IsRoot(den, Times(Cov(us, us), Cov(vs, vs)))
    requires var us', vs' := Rescale(us, a, b), Rescale(vs, c, d); IsRoot(den', Times(Cov(us', us'), Cov(vs', vs')))
    ensures Coefficient(Cov(Rescale(us, a, b), Rescale(vs, c, d)), den') == Coefficient(Cov(us, vs), den)
  {
    hide Cov, Rescale, Coefficient, Times;
    CovRescaleBoth(us, a, b, us, a, b);
    CovRescaleBoth(vs, c, d, vs, c, d);
    CovRescaleBoth(us, a, b, vs, c, d);
    RootScales(den, den', a, c, Cov(us, us), Cov(vs, vs));
    RatioScales(Cov(us, vs), den, c);
    RatioScales(Times(c, Cov(us, vs)), Times(c, den), a);
  }

  // ---------- the handler ----------

  datatype Point = Point(x: real, y: real)

  function Xs(points: seq<Point>): (r: Series)
    ensures |r| == |points| && forall i :: 0 <= i < |r| ==> r[i] == points[i].x
  {
    seq(|points|, i requires 0 <= i < |points| => points[i].x)
  }

  function Ys(points: seq<Point>): (r: Series)
    ensures |r| == |points| && forall i :: 0 <= i < |r| ==> r[i] == points[i].y
  {
    seq(|points|, i requires 0 <= i < |points| => points[i].y)
  }

  /** A row: both cells parse as numbers, or the row is skipped. */
  type Row = Option<Point>

  function Parsed(rows: seq<Row>): seq<Point> {
    if rows == [] then []
    else Parsed(rows[..|rows| - 1]) + (if rows[|rows| - 1].Some? then [rows[|rows| - 1].value] else [])
  }

  /** The points are, in order, exactly the rows at these positions, and those are the ones
      that parse. */
  ghost predicate ParsedAt(rows: seq<Row>, at: seq<nat>, points: seq<Point>) {
    && |at| == |points|
    && (forall j, k :: 0 <= j < k < |at| ==> at[j] < at[k])
    && (forall j :: 0 <= j < |at| ==> at[j] < |rows| && rows[at[j]] == Some(points[j]))
    && (forall i: nat :: i < |rows| && rows[i] != None ==> i in at)
  }

  lemma OneMoreParsed(rows: seq<Row>, row: Row, at: seq<nat>, points: seq<Point>)
    requires ParsedAt(rows, at, points)
    ensures row == None ==> ParsedAt(rows + [row], at, points)
    ensures row != None ==> ParsedAt(rows + [row], at + [|rows|], points + [row.value])
  {
    forall i: nat | i < |rows| && (rows + [row])[i] != None ensures i in at { assert rows[i] != None; }
    assert (at + [|rows|])[|at|] == |rows|;
  }

  /** The points are, in order, exactly the rows that parse. */
  lemma {:induction false} ParsedAre(rows: seq<Row>) returns (at: seq<nat>)
    ensures ParsedAt(rows, at, Parsed(rows))
  {
    hide ParsedAt;
    if rows == [] {
      at := [];
      NothingParsed();
    } else {
      var front, row := rows[..|rows| - 1], rows[|rows| - 1];
      at := ParsedAre(front);
      assert rows == front + [row];
      OneMoreParsed(front, row, at, Parsed(front));
      if row == None {
        assert Parsed(rows) == Parsed(front);
      } else {
        at := at + [|front|];
      }
    }
  }

  lemma NothingParsed()
    ensures ParsedAt([], [], [])
  {
  }

  method ParseRows(rows: seq<Row>) returns (dataPoints: seq<Point>)
    ensures dataPoints == Parsed(rows)
  {
    dataPoints := [];
    for k := 0 to |rows|
      invariant dataPoints == Parsed(rows[..k])
    {
      assert rows[..k + 1][..k] == rows[..k];
      if rows[k].Some? {
        dataPoints := dataPoints + [rows[k].value];
      }
    }
    assert rows[..|rows|] == rows;
  }

  lemma PrefixSums(us: Series, vs: Series, k: nat)
    requires |us| == |vs| && k < |us|
    ensures Sum(us[..k + 1]) == Sum(us[..k]) + us[k]
    ensures Dot(us[..k + 1], vs[..k + 1]) == Dot(us[..k], vs[..k]) + us[k] * vs[k]
  {
    assert Front(us[..k + 1]) == us[..k] && Front(vs[..k + 1]) == vs[..k];
  }

  /** The running sums. */
  method Accumulate(points: seq<Point>) returns (sx: real, sy: real, sxx: real, syy: real, sxy: real)
    ensures var us, vs := Xs(points), Ys(points);
      && sx == Sum(us) && sy == Sum(vs)
      && sxx == Dot(us, us) && syy == Dot(vs, vs) && sxy == Dot(us, vs)
  {
    ghost var us, vs := Xs(points), Ys(points);
    sx, sy, sxx, syy, sxy := 0.0, 0.0, 0.0, 0.0, 0.0;
    for k := 0 to |points|
      invariant sx == Sum(us[..k]) && sy == Sum(vs[..k])
      invariant sxx == Dot(us[..k], us[..k]) && syy == Dot(vs[..k], vs[..k]) && sxy == Dot(us[..k], vs[..k])
    {
      PrefixSums(us, us, k);
      PrefixSums(vs, vs, k);
      PrefixSums(us, vs, k);
      var px, py := points[k].x, points[k].y;
      sx := sx + px;
      sy := sy + py;
      sxx := sxx + px * px;
      syy := syy + py * py;
      sxy := sxy + px * py;
    }
    assert us[..|points|] == us && vs[..|points|] == vs;
  }

  /** corr is the covariance of the points over the root of their variances, or 0. */
  ghost predicate IsCorrelation(points: seq<Point>, corr: real) {
    exists den ::
      IsRoot(den, Times(Cov(Xs(points), Xs(points)), Cov(Ys(points), Ys(points)))) &&
      corr == Coefficient(Cov(Xs(points), Ys(points)), den)
  }

  /** The correlation of the points, from their sums.  `sqrt` is the library's square
      root, which is defined on non-negative numbers only. */
  method Correlate(points: seq<Point>, sqrt: real --> real) returns (corr: real)
    requires forall v: real :: v >= 0.0 ==> sqrt.requires(v) && IsRoot(sqrt(v), v)
    ensures IsCorrelation(points, corr) && -1.0 <= corr <= 1.0
  {
    hide Cov, Dot, Sum, Xs, Ys, Times;
    var n := |points| as real;
    var sx, sy, sxx, syy, sxy := Accumulate(points);
    ghost var us, vs := Xs(points), Ys(points);
    CovFromSums(us, us);
    CovFromSums(vs, vs);
    CovFromSums(us, vs);
    ArgumentNonNegative(us, vs);
    var num := Times(n, sxy) - Times(sx, sy);
    var den := sqrt(Times(Times(n, sxx) - Times(sx, sx), Times(n, syy) - Times(sy, sy)));
    CoefficientBounds(us, vs, den);
    corr := if den != 0.0 then num / den else 0.0;
  }

  /** What is plotted, and the correlation shown under the plot: none for fewer than
      two points. */
  method Scatter(rows: seq<Row>, sqrt: real --> real) returns (dataPoints: seq<Point>, corr: Option<real>)
    requires forall v: real :: v >= 0.0 ==> sqrt.requires(v) && IsRoot(sqrt(v), v)
    ensures dataPoints == Parsed(rows)
    ensures corr.Some? <==> |dataPoints| > 1
    ensures corr.Some? ==> IsCorrelation(dataPoints, corr.value) && -1.0 <= corr.value <= 1.0
  {
    hide IsCorrelation, IsRoot;
    dataPoints := ParseRows(rows);
    corr := None;
    if |dataPoints| > 1 {
      var c := Correlate(dataPoints, sqrt);
      corr := Some(c);
    }
  }
}

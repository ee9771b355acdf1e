/** `calculateRhoA`: apparent resistivity from measured potentials and the
    electrode positions A, B (current) and M, N (potential) on the surface line,
    for the four standard arrays. Every electrode separation is stabilised by
    adding `eps`. */
module ApparentResistivity {
  import opened Wrappers
  import opened Geometry

  /** `eps = 1e-9`. */
  const Eps: real := 0.000000001

  function Abs(x: real): real
  {
    if x < 0.0 then -x else x
  }

  /** `1.0 / (np.abs(d) + eps)`: the stabilised inverse separation, always positive and finite. */
  function InvSep(d: real): (t: real)
    ensures t > 0.0
  {
    1.0 / (Abs(d) + Eps)
  }

  /** The four survey strings the function recognises. */
  datatype Survey = DipoleDipole | PoleDipole | DipolePole | PolePole

  function ParseSurvey(s: string): (sv: Option<Survey>)
    ensures sv == Some(DipoleDipole) <==> s == "Dipole-Dipole"
    ensures sv == Some(PoleDipole) <==> s == "Pole-Dipole"
    ensures sv == Some(DipolePole) <==> s == "Dipole-Pole"
    ensures sv == Some(PolePole) <==> s == "Pole-Pole"
  {
    if s == "Dipole-Dipole" then Some(DipoleDipole)
    else if s == "Pole-Dipole" then Some(PoleDipole)
    else if s == "Dipole-Pole" then Some(DipolePole)
    else if s == "Pole-Pole" then Some(PolePole)
    else None
  }

  /** The reciprocal of the geometric factor `G`, before `1.0 / ...` is taken. */
  function Denominator(sv: Survey, A: real, B: real, M: real, N: real): (d: real)
    ensures sv == PolePole ==> d > 0.0
  {
    match sv
    case DipoleDipole => InvSep(A - M) - InvSep(M - B) - InvSep(N - A) + InvSep(N - B)
    case PoleDipole => InvSep(A - M) - InvSep(N - A)
    case DipolePole => InvSep(A - M) - InvSep(M - B)
    case PolePole => InvSep(A - M)
  }

  /** Two positive separations have equal reciprocals exactly when they are equal. */
  lemma SeparationsEqual(x: real, y: real)
    requires x > 0.0 && y > 0.0
    ensures 1.0 / x == 1.0 / y <==> x == y
  {
    if 1.0 / x == 1.0 / y {
      assert x == 1.0 / (1.0 / x) && y == 1.0 / (1.0 / y);
    }
  }

  /** The measured voltage: `VM - VN` for a dipole receiver, `VM` for a pole receiver. */
  function Voltage(sv: Survey, VM: real, VN: real): real
  {
    match sv
    case DipoleDipole => VM - VN
    case PoleDipole => VM - VN
    case DipolePole => VM
    case PolePole => VM
  }

  /** The outcome: a value, a division by zero (numpy yields inf or nan), or a
      survey string none of the branches match (`rho_a` is never bound and the
      `return` raises). */
  datatype RhoA = RhoA(value: real) | NonFinite | UnrecognizedSurvey

  /** One branch of `calculateRhoA`: `(voltage) * 2 pi * G` with `G = 1 / denominator`. */
  function Evaluate(sv: Survey, VM: real, VN: real, A: real, B: real, M: real, N: real): (r: RhoA)
    ensures !r.UnrecognizedSurvey?
    ensures r.NonFinite? <==> Denominator(sv, A, B, M, N) == 0.0
    ensures r.RhoA? ==> r.value * Denominator(sv, A, B, M, N) == Voltage(sv, VM, VN) * 2.0 * Pi
  {
    var den := Denominator(sv, A, B, M, N);
    if den == 0.0 then NonFinite
    else
      var G := 1.0 / den;
      RhoA(Voltage(sv, VM, VN) * 2.0 * Pi * G)
  }

  /** `calculateRhoA`: the branch the survey string selects; no branch for any other string. */
  function CalculateRhoA(survey: string, VM: real, VN: real, A: real, B: real, M: real, N: real): (r: RhoA)
    ensures r.UnrecognizedSurvey? <==> ParseSurvey(survey).None?
    ensures ParseSurvey(survey).Some? ==> r == Evaluate(ParseSurvey(survey).value, VM, VN, A, B, M, N)
  {
    match ParseSurvey(survey)
    case None => UnrecognizedSurvey
    case Some(sv) => Evaluate(sv, VM, VN, A, B, M, N)
  }

  /** The potential a homogeneous half-space of resistivity `rho` sets up at `x`
      with the stabilised separations: from a pole at A, or a dipole A-B. */
  function HalfSpacePotential(rho: real, poleSource: bool, A: real, B: real, x: real): real
  {
    rho / (2.0 * Pi) * (InvSep(x - A) - (if poleSource then 0.0 else InvSep(x - B)))
  }

  function HasPoleSource(sv: Survey): bool
  {
    sv == PoleDipole || sv == PolePole
  }

  lemma InvSepSymmetric(d: real)
    ensures InvSep(-d) == InvSep(d)
  {
    assert Abs(-d) == Abs(d);
  }

  /** The voltage of a half-space is `rho / (2 pi)` times the denominator. */
  lemma HalfSpaceVoltage(sv: Survey, rho: real, A: real, B: real, M: real, N: real)
    ensures var VM := HalfSpacePotential(rho, HasPoleSource(sv), A, B, M);
      var VN := HalfSpacePotential(rho, HasPoleSource(sv), A, B, N);
      Voltage(sv, VM, VN) == rho / (2.0 * Pi) * Denominator(sv, A, B, M, N)
  {
    var k := rho / (2.0 * Pi);
    InvSepSymmetric(A - M);
    InvSepSymmetric(A - N);
    assert InvSep(M - A) == InvSep(A - M) by { assert M - A == -(A - M); }
    var a, b, c, d := InvSep(A - M), InvSep(M - B), InvSep(N - A), InvSep(N - B);
    match sv
    case DipoleDipole => Distribute4(k, a, b, c, d);
    case PoleDipole => Distribute2(k, a, c);
    case DipolePole =>
    case PolePole =>
  }

  lemma Distribute4(k: real, a: real, b: real, c: real, d: real)
    ensures k * (a - b) - k * (c - d) == k * (a - b - c + d)
  {
  }

  lemma Distribute2(k: real, a: real, c: real)
    ensures k * (a - 0.0) - k * (c - 0.0) == k * (a - c)
  {
  }

  /** Multiplying a voltage `rho / (2 p) * den` by `2 p` and by `1 / den` gives back `rho`. */
  lemma Cancel(v: real, rho: real, den: real, p: real)
    requires den != 0.0 && p > 0.0
    requires v == rho / (2.0 * p) * den
    ensures v * 2.0 * p * (1.0 / den) == rho
  {
    var k := rho / (2.0 * p);
    assert v * 2.0 * p * (1.0 / den) == k * (2.0 * p) * (den * (1.0 / den));
    assert den * (1.0 / den) == 1.0;
  }

  /** Over a homogeneous half-space the apparent resistivity is the true one, for
      every array and every electrode layout with a non-zero denominator: the
      geometric factor inverts the half-space forward model. */
  lemma HalfSpaceRecovered(sv: Survey, rho: real, A: real, B: real, M: real, N: real)
    requires Denominator(sv, A, B, M, N) != 0.0
    ensures Evaluate(sv, HalfSpacePotential(rho, HasPoleSource(sv), A, B, M),
                     HalfSpacePotential(rho, HasPoleSource(sv), A, B, N), A, B, M, N) == RhoA(rho)
  {
    var VM := HalfSpacePotential(rho, HasPoleSource(sv), A, B, M);
    var VN := HalfSpacePotential(rho, HasPoleSource(sv), A, B, N);
    HalfSpaceVoltage(sv, rho, A, B, M, N);
    Recover(sv, VM, VN, rho, A, B, M, N);
  }

  /** `Evaluate` returns `rho` whenever the voltage is `rho / (2 pi)` times a non-zero denominator. */
  lemma Recover(sv: Survey, VM: real, VN: real, rho: real, A: real, B: real, M: real, N: real)
    requires Denominator(sv, A, B, M, N) != 0.0
    requires Voltage(sv, VM, VN) == rho / (2.0 * Pi) * Denominator(sv, A, B, M, N)
    ensures Evaluate(sv, VM, VN, A, B, M, N) == RhoA(rho)
  {
    Cancel(Voltage(sv, VM, VN), rho, Denominator(sv, A, B, M, N), Pi);
  }

  /** Pole-Pole: `rho_a = VM * 2 pi * (|A - M| + eps)`, and it is always finite. */
  lemma PolePoleClosedForm(VM: real, VN: real, A: real, B: real, M: real, N: real)
    ensures CalculateRhoA("Pole-Pole", VM, VN, A, B, M, N) == RhoA(VM * 2.0 * Pi * (Abs(A - M) + Eps))
  {
    var d := Abs(A - M) + Eps;
    assert 1.0 / (1.0 / d) == d;
  }

  /** The arrays with a pole receiver do not read `VN`. */
  lemma PoleReceiverIgnoresVN(survey: string, VM: real, VN1: real, VN2: real, A: real, B: real, M: real, N: real)
    requires survey == "Dipole-Pole" || survey == "Pole-Pole"
    ensures CalculateRhoA(survey, VM, VN1, A, B, M, N) == CalculateRhoA(survey, VM, VN2, A, B, M, N)
  {
  }

  /** The arrays with a pole source do not read `B`; those with a pole receiver do not read `N`. */
  lemma PoleElectrodesIgnored(survey: string, VM: real, VN: real, A: real, B1: real, B2: real, M: real, N1: real, N2: real)
    ensures survey == "Pole-Dipole" ==>
      CalculateRhoA(survey, VM, VN, A, B1, M, N1) == CalculateRhoA(survey, VM, VN, A, B2, M, N1)
    ensures survey == "Dipole-Pole" ==>
      CalculateRhoA(survey, VM, VN, A, B1, M, N1) == CalculateRhoA(survey, VM, VN, A, B1, M, N2)
    ensures survey == "Pole-Pole" ==>
      CalculateRhoA(survey, VM, VN, A, B1, M, N1) == CalculateRhoA(survey, VM, VN, A, B2, M, N2)
  {
  }

  /** Reciprocity: exchanging the current pair A, B with the potential pair M, N
      leaves the Dipole-Dipole geometric factor unchanged. */
  lemma DipoleDipoleReciprocity(A: real, B: real, M: real, N: real)
    ensures Denominator(DipoleDipole, M, N, A, B) == Denominator(DipoleDipole, A, B, M, N)
  {
    InvSepSymmetric(A - M);
    InvSepSymmetric(B - M);
    InvSepSymmetric(N - A);
    InvSepSymmetric(N - B);
    assert -(M - A) == A - M && -(B - M) == M - B && -(A - N) == N - A && -(B - N) == N - B;
  }

  /** Pole-Dipole returns inf or nan exactly when M and N are equally far from A. */
  lemma PoleDipoleNonFinite(VM: real, VN: real, A: real, B: real, M: real, N: real)
    ensures CalculateRhoA("Pole-Dipole", VM, VN, A, B, M, N).NonFinite? <==> Abs(A - M) == Abs(N - A)
  {
    SeparationsEqual(Abs(A - M) + Eps, Abs(N - A) + Eps);
  }

  /** Dipole-Pole returns inf or nan exactly when A and B are equally far from M. */
  lemma DipolePoleNonFinite(VM: real, VN: real, A: real, B: real, M: real, N: real)
    ensures CalculateRhoA("Dipole-Pole", VM, VN, A, B, M, N).NonFinite? <==> Abs(A - M) == Abs(M - B)
  {
    SeparationsEqual(Abs(A - M) + Eps, Abs(M - B) + Eps);
  }
}

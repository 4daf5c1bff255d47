/** The point-to-point link budget: a transmitter, a channel and a receiver
    joined by a fibre of given length with splices at a fixed spacing and a
    connector at each end. The constructors scale their arguments into base
    units once; every loss term is then a closed-form expression over those
    stored fields. */
module Links {
  import opened Common
  import opened Constants
  import opened RealArith

  /** The only error the link budget can raise: a division by zero. */
  datatype LinkError = ZeroDivisionError

  /** A fibre channel. Only `attenuation` (dB per metre) enters the budget. */
  datatype Channel = Channel(coreRadius: real, na: real, bandwidth: real, attenuation: real, coreN: real)

  datatype Transmitter = Transmitter(emissionWavelength: real, spectralLineWidth: real, era: real, emissionPattern: real)

  /** A receiver. Only `sensitivity` (dBm) enters the budget. */
  datatype Receiver = Receiver(responsivity: real, operatingWavelength: real, sensitivity: real)

  /** The link as stored: `length` and `dist` (the splice spacing) in metres. */
  datatype P2PSystem = P2PSystem(
    transmitter: Transmitter, receiver: Receiver, channel: Channel,
    length: real, dist: real, safetyMargin: real, lsp: real, connectorLoss: real, ps: real)

  /** A channel from the caller's units: core radius in microns, attenuation in dB/km. */
  function NewChannel(coreRadiusMicrons: real, na: real, bandwidth: real, attenuationDbPerKm: real, coreN: real,
                      u: UnitConstants): (ch: Channel)
    requires u.Valid()
    ensures ch.attenuation * u.kilo == attenuationDbPerKm
    ensures ch.coreRadius / u.micron == coreRadiusMicrons
    ensures ch.na == na && ch.bandwidth == bandwidth && ch.coreN == coreN
  {
    Channel(coreRadiusMicrons * u.micron, na, bandwidth, attenuationDbPerKm / u.kilo, coreN)
  }

  /** A transmitter from the caller's units. The wavelength is scaled by `micro`,
      so the caller gives micrometres, although the docstring at links.py:25
      calls the unit Angstroms. */
  function NewTransmitter(wavelengthMicro: real, spectralLineWidth: real, era: real, emissionPattern: real,
                          u: UnitConstants): (t: Transmitter)
    requires u.Valid()
    ensures t.emissionWavelength / u.micro == wavelengthMicro
    ensures 0.0 < wavelengthMicro <==> 0.0 < t.emissionWavelength
    ensures t.spectralLineWidth == spectralLineWidth && t.era == era && t.emissionPattern == emissionPattern
  {
    Transmitter(wavelengthMicro * u.micro, spectralLineWidth, era, emissionPattern)
  }

  /** Photon energy h*c/lambda; a zero wavelength raises. */
  function CalculateEnergy(t: Transmitter, u: UnitConstants): (r: Result<real, LinkError>)
    ensures r.Err? <==> t.emissionWavelength == 0.0
    ensures r.Ok? ==> r.value * t.emissionWavelength == u.h * u.c
    ensures r.Ok? && u.Valid() ==> (0.0 < r.value <==> 0.0 < t.emissionWavelength)
  {
    if t.emissionWavelength == 0.0 then Err(ZeroDivisionError)
    else Ok(u.h * u.c / t.emissionWavelength)
  }

  /** A link from the caller's units: length and splice spacing in kilometres. */
  function NewP2PSystem(transmitter: Transmitter, receiver: Receiver, channel: Channel,
                        lengthKm: real, distKm: real, safetyMargin: real, lsp: real,
                        connectorLoss: real, sourcePower: real, u: UnitConstants): (s: P2PSystem)
    requires u.Valid()
    ensures s.length / u.kilo == lengthKm && s.dist / u.kilo == distKm
    ensures s.transmitter == transmitter && s.receiver == receiver && s.channel == channel
    ensures s.safetyMargin == safetyMargin && s.lsp == lsp && s.connectorLoss == connectorLoss && s.ps == sourcePower
  {
    P2PSystem(transmitter, receiver, channel, lengthKm * u.kilo, distKm * u.kilo,
              safetyMargin, lsp, connectorLoss, sourcePower)
  }

  /** One splice fewer than the number of whole spacings in the length,
      where the whole part is taken toward zero. */
  function SpliceCount(s: P2PSystem): (r: Result<int, LinkError>)
    ensures r.Err? <==> s.dist == 0.0
    ensures r.Ok? && 0.0 <= s.length / s.dist ==>
              0 <= r.value + 1 && (r.value + 1) as real <= s.length / s.dist < (r.value + 2) as real
    ensures r.Ok? && s.length / s.dist < 0.0 ==>
              r.value + 1 <= 0 && (r.value as real) < s.length / s.dist <= (r.value + 1) as real
  {
    if s.dist == 0.0 then Err(ZeroDivisionError)
    else Ok(Trunc(s.length / s.dist) - 1)
  }

  /** Loss over all splices: the per-splice loss times the splice count. */
  function SpliceLoss(s: P2PSystem): (r: Result<real, LinkError>)
    ensures r.Err? <==> s.dist == 0.0
    ensures r.Ok? && 0.0 <= s.length / s.dist ==> r.value == s.lsp * ((s.length / s.dist).Floor - 1) as real
    ensures r.Ok? && s.length / s.dist < 0.0 ==> r.value == s.lsp * (-(-(s.length / s.dist)).Floor - 1) as real
  {
    match SpliceCount(s)
    case Err(e) => Err(e)
    case Ok(n) => Ok(s.lsp * n as real)
  }

  /** Loss along the fibre: attenuation per metre times length in metres. */
  function AttenuationLoss(s: P2PSystem): (r: real)
    ensures 0.0 <= s.length && 0.0 <= s.channel.attenuation ==> 0.0 <= r
    ensures s.length == 0.0 || s.channel.attenuation == 0.0 ==> r == 0.0
  {
    s.channel.attenuation * s.length
  }

  /** The loss the link may spend: source power less receiver sensitivity. */
  function AllowedLoss(s: P2PSystem): (r: real)
  {
    s.ps - s.receiver.sensitivity
  }

  /** Two connectors, attenuation, splices and the safety margin. */
  function TotalLoss(s: P2PSystem): (r: Result<real, LinkError>)
    ensures r.Err? <==> s.dist == 0.0
    ensures r.Ok? ==> r.value == 2.0 * s.connectorLoss + AttenuationLoss(s)
                                 + s.lsp * SpliceCount(s).value as real + s.safetyMargin
  {
    match SpliceLoss(s)
    case Err(e) => Err(e)
    case Ok(lossSp) => Ok(2.0 * s.connectorLoss + AttenuationLoss(s) + lossSp + s.safetyMargin)
  }

  /** The link closes when its total loss is strictly below the allowed loss. */
  function IsLossValid(s: P2PSystem): (r: Result<bool, LinkError>)
    ensures r.Err? <==> s.dist == 0.0
    ensures r.Ok? ==> (r.value <==> TotalLoss(s).value < AllowedLoss(s))
  {
    match TotalLoss(s)
    case Err(e) => Err(e)
    case Ok(total) => Ok(total < AllowedLoss(s))
  }

  // ---------------------------------------------------------------------------
  // Properties of the budget

  /** The scalings of attenuation (per km to per m) and of length (km to m) cancel. */
  lemma AttenuationScalingCancels(t: Transmitter, rx: Receiver,
                                  coreRadiusMicrons: real, na: real, bandwidth: real, attenuationDbPerKm: real, coreN: real,
                                  lengthKm: real, distKm: real, safetyMargin: real, lsp: real,
                                  connectorLoss: real, sourcePower: real, u: UnitConstants)
    requires u.Valid()
    ensures AttenuationLoss(NewP2PSystem(t, rx, NewChannel(coreRadiusMicrons, na, bandwidth, attenuationDbPerKm, coreN, u),
                                         lengthKm, distKm, safetyMargin, lsp, connectorLoss, sourcePower, u))
            == attenuationDbPerKm * lengthKm
  {
    var a := attenuationDbPerKm / u.kilo;
    calc {
      a * (lengthKm * u.kilo);
      (a * u.kilo) * lengthKm;
      { assert a * u.kilo == attenuationDbPerKm; }
      attenuationDbPerKm * lengthKm;
    }
  }

  /** The splice count depends only on the ratio of the caller's length and spacing. */
  lemma SpliceCountScaleFree(t: Transmitter, rx: Receiver, ch: Channel,
                             lengthKm: real, distKm: real, safetyMargin: real, lsp: real,
                             connectorLoss: real, sourcePower: real, u: UnitConstants)
    requires u.Valid()
    ensures SpliceCount(NewP2PSystem(t, rx, ch, lengthKm, distKm, safetyMargin, lsp, connectorLoss, sourcePower, u))
            == if distKm == 0.0 then Err(ZeroDivisionError) else Ok(Trunc(lengthKm / distKm) - 1)
  {
    var s := NewP2PSystem(t, rx, ch, lengthKm, distKm, safetyMargin, lsp, connectorLoss, sourcePower, u);
    assert s.length == lengthKm * u.kilo && s.dist == distKm * u.kilo;
    if distKm != 0.0 {
      var q := lengthKm / distKm;
      assert q * distKm == lengthKm;
      assert s.length / s.dist == q by {
        assert q * (distKm * u.kilo) == lengthKm * u.kilo;
      }
      assert SpliceCount(s) == Ok(Trunc(q) - 1);
    }
  }

  /** A link shorter than one splice spacing counts -1 splices, so the splice
      term lowers the total loss by `lsp`. */
  lemma ShortLinkNegativeSplices(s: P2PSystem)
    requires 0.0 <= s.length < s.dist
    ensures SpliceCount(s) == Ok(-1)
    ensures SpliceLoss(s) == Ok(-s.lsp)
    ensures TotalLoss(s) == Ok(2.0 * s.connectorLoss + AttenuationLoss(s) - s.lsp + s.safetyMargin)
  {
    var q := s.length / s.dist;
    assert q * s.dist == s.length;
    assert 0.0 <= q < 1.0;
    assert Trunc(q) == 0;
  }

  /** On a short link a larger splice loss makes the total loss smaller. */
  lemma ShortLinkSpliceLossHelps(s: P2PSystem, lsp': real)
    requires 0.0 <= s.length < s.dist
    requires s.lsp < lsp'
    ensures TotalLoss(s.(lsp := lsp')).value < TotalLoss(s).value
  {
    var t := s.(lsp := lsp');
    ShortLinkNegativeSplices(s);
    ShortLinkNegativeSplices(t);
    assert AttenuationLoss(t) == AttenuationLoss(s);
  }

  /** The link closes exactly when the power left at the receiver, the source
      power less the total loss, is above the receiver's sensitivity; it fails
      exactly when that power is at or below the sensitivity. */
  lemma ReceivedPowerAboveSensitivity(s: P2PSystem)
    ensures IsLossValid(s) == Ok(true) <==> s.dist != 0.0 && s.ps - TotalLoss(s).value > s.receiver.sensitivity
    ensures IsLossValid(s) == Ok(false) <==> s.dist != 0.0 && s.ps - TotalLoss(s).value <= s.receiver.sensitivity
  {
  }

  /** A link whose total loss equals the allowed loss does not close. */
  lemma ExactBudgetFails(s: P2PSystem)
    requires TotalLoss(s) == Ok(AllowedLoss(s))
    ensures IsLossValid(s) == Ok(false)
  {
  }

  /** `t` is `s` with some of its losses raised: the connector loss, the safety
      margin, the per-splice loss (only when at least zero splices are counted)
      or the attenuation (only on a link of non-negative length). */
  predicate RaisesLosses(s: P2PSystem, t: P2PSystem)
  {
    && t == s.(connectorLoss := t.connectorLoss, safetyMargin := t.safetyMargin, lsp := t.lsp,
               channel := s.channel.(attenuation := t.channel.attenuation))
    && s.connectorLoss <= t.connectorLoss
    && s.safetyMargin <= t.safetyMargin
    && s.lsp <= t.lsp
    && (s.lsp < t.lsp ==> SpliceCount(s).Ok? && 0 <= SpliceCount(s).value)
    && s.channel.attenuation <= t.channel.attenuation
    && (s.channel.attenuation < t.channel.attenuation ==> 0.0 <= s.length)
  }

  /** Raising losses never lowers the total loss and never turns a failing link
      into a passing one. */
  lemma RaisingLossesNeverHelps(s: P2PSystem, t: P2PSystem)
    requires RaisesLosses(s, t)
    ensures TotalLoss(s).Ok? ==> TotalLoss(t).Ok? && TotalLoss(s).value <= TotalLoss(t).value
    ensures IsLossValid(s) == Ok(false) ==> IsLossValid(t) == Ok(false)
    ensures IsLossValid(s).Err? ==> IsLossValid(t).Err?
  {
    if s.dist != 0.0 {
      assert SpliceCount(t) == SpliceCount(s);
      AttenuationMono(s, t);
      BudgetMono(s.connectorLoss, t.connectorLoss, AttenuationLoss(s), AttenuationLoss(t),
                 s.lsp, t.lsp, SpliceCount(s).value as real, s.safetyMargin, t.safetyMargin);
      assert AllowedLoss(s) == AllowedLoss(t);
      assert IsLossValid(s).value == (TotalLoss(s).value < AllowedLoss(s));
      assert IsLossValid(t).value == (TotalLoss(t).value < AllowedLoss(t));
    }
  }

  /** A larger per-splice loss gives a larger splice term when the count is non-negative. */
  lemma SpliceTermMono(lsp: real, lsp': real, n: real)
    requires lsp <= lsp' && (lsp < lsp' ==> 0.0 <= n)
    ensures lsp * n <= lsp' * n
  {
    if lsp < lsp' {
      calc { lsp * n; == n * lsp; <= { MulMono(n, lsp, lsp'); } n * lsp'; == lsp' * n; }
    }
  }

  /** Raising the attenuation on a link of non-negative length raises its loss. */
  lemma AttenuationMono(s: P2PSystem, t: P2PSystem)
    requires RaisesLosses(s, t)
    ensures AttenuationLoss(s) <= AttenuationLoss(t)
  {
    if s.channel.attenuation < t.channel.attenuation {
      calc {
        s.channel.attenuation * s.length;
      == s.length * s.channel.attenuation;
      <= { MulMono(s.length, s.channel.attenuation, t.channel.attenuation); }
        s.length * t.channel.attenuation;
      == t.channel.attenuation * t.length;
      }
    }
  }

  /** Termwise comparison of two loss sums that share the splice count. */
  lemma BudgetMono(c: real, c': real, a: real, a': real, lsp: real, lsp': real, n: real, m: real, m': real)
    requires c <= c' && a <= a' && m <= m'
    requires lsp <= lsp' && (lsp < lsp' ==> 0.0 <= n)
    ensures 2.0 * c + a + lsp * n + m <= 2.0 * c' + a' + lsp' * n + m'
  {
    SpliceTermMono(lsp, lsp', n);
    var p, p' := lsp * n, lsp' * n;
    assert p <= p';
  }

  /** 50 km with splices every 2 km at 0.1 dB, 0.35 dB/km, two 0.5 dB connectors
      and a 3 dB margin: 24 splices, 23.9 dB in all, which a 0 dBm source and a
      -40 dBm receiver cover. */
  lemma WorkedExample(t: Transmitter, responsivity: real, operatingWavelength: real,
                      coreRadiusMicrons: real, na: real, bandwidth: real, coreN: real, u: UnitConstants)
    requires u.Valid()
    ensures var s := NewP2PSystem(t, Receiver(responsivity, operatingWavelength, -40.0),
                                  NewChannel(coreRadiusMicrons, na, bandwidth, 0.35, coreN, u),
                                  50.0, 2.0, 3.0, 0.1, 0.5, 0.0, u);
            && SpliceCount(s) == Ok(24)
            && AttenuationLoss(s) == 17.5
            && TotalLoss(s) == Ok(23.9)
            && AllowedLoss(s) == 40.0
            && IsLossValid(s) == Ok(true)
  {
    var ch := NewChannel(coreRadiusMicrons, na, bandwidth, 0.35, coreN, u);
    var rx := Receiver(responsivity, operatingWavelength, -40.0);
    var s := NewP2PSystem(t, rx, ch, 50.0, 2.0, 3.0, 0.1, 0.5, 0.0, u);
    SpliceCountScaleFree(t, rx, ch, 50.0, 2.0, 3.0, 0.1, 0.5, 0.0, u);
    TruncOfWhole(25);
    assert SpliceCount(s) == Ok(24);
    AttenuationScalingCancels(t, rx, coreRadiusMicrons, na, bandwidth, 0.35, coreN,
                              50.0, 2.0, 3.0, 0.1, 0.5, 0.0, u);
    assert AttenuationLoss(s) == 17.5;
    ExampleBudget(s);
  }

  /** The budget arithmetic of the worked example, once the splice count and
      the attenuation loss are known. */
  lemma ExampleBudget(s: P2PSystem)
    requires SpliceCount(s) == Ok(24) && AttenuationLoss(s) == 17.5
    requires s.connectorLoss == 0.5 && s.safetyMargin == 3.0 && s.lsp == 0.1
    requires s.ps == 0.0 && s.receiver.sensitivity == -40.0
    ensures TotalLoss(s) == Ok(23.9) && AllowedLoss(s) == 40.0 && IsLossValid(s) == Ok(true)
  {
  }

  /** A positive wavelength gives a positive photon energy. */
  lemma EnergyPositive(wavelengthMicro: real, spectralLineWidth: real, era: real, emissionPattern: real,
                       u: UnitConstants)
    requires u.Valid() && 0.0 < wavelengthMicro
    ensures var r := CalculateEnergy(NewTransmitter(wavelengthMicro, spectralLineWidth, era, emissionPattern, u), u);
            r.Ok? && 0.0 < r.value
  {
  }

  /** With the SI constants, a photon of a 1.55 micrometre emitter carries
      about 1.2816e-19 J. */
  lemma EnergyAt1550nm(spectralLineWidth: real, era: real, emissionPattern: real)
    ensures var r := CalculateEnergy(NewTransmitter(1.55, spectralLineWidth, era, emissionPattern, SciPy), SciPy);
            r.Ok? && 1.2815e-19 < r.value < 1.2816e-19
  {
    var t := NewTransmitter(1.55, spectralLineWidth, era, emissionPattern, SciPy);
    assert t.emissionWavelength == 1.55e-6;
  }
}

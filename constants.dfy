/** The unit-scale multipliers and physical constants the constructors read
    from the constants provider (`scipy.constants` in the Python toolkit). */
module Constants {

  datatype UnitConstants = UnitConstants(kilo: real, micro: real, micron: real, h: real, c: real)
  {
    /** Every scale factor and constant is a positive number. */
    predicate Valid()
    {
      0.0 < kilo && 0.0 < micro && 0.0 < micron && 0.0 < h && 0.0 < c
    }
  }

  /** The values scipy.constants supplies (exact SI values). */
  const SciPy: UnitConstants :=
    UnitConstants(1000.0, 1.0e-6, 1.0e-6, 6.62607015e-34, 299792458.0)
}

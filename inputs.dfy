/** The fixed design inputs and physical constants of the configuration file
    (Inputs.py), as named constants. */
module Inputs {
  const MaxThickness: real := 0.14   // thickness over chord ratio t/c
  const LcMin: real := 0.04          // [m] minimum allowable chord
  const TMin: real := 0.005          // [m] minimum allowable thickness
  const Width: real := 0.098         // [m] width of the manufacturing material
  const Height: real := 0.048        // [m] height of the manufacturing material
  const LCirc: real := 0.048         // [m] chord of the hub cylinder
  const WindSpeed: real := 12.0      // [m/s]
  const AirDensity: real := 1.225    // [kg/m^3]
  const Viscosity: real := 0.0000147 // [kg/(m s)], 1.47*10**(-5)
}

/** The older convention-based default name, `Defaults.Name`, used by the legacy intercept. */
module Defaults {
  import opened Wrappers
  import opened Text
  import Constants

  /** The same derivation as `Constants.Defaults.NormalizedEntryAssembly`, in its own static class. */
  function Name(entryAssemblyName: Option<string>): (r: Result<string, Constants.Fault>)
    ensures entryAssemblyName.None? <==> r.Failure?
    ensures r.Failure? ==> r.error == Constants.TypeInitialization(Constants.CantDetermineName)
    ensures r.Success? ==> |r.value| == |entryAssemblyName.value| && Constants.IsNormalized(r.value)
  {
    Constants.NormalizedEntryAssembly(entryAssemblyName)
  }
}

/**
 * The stand-alone Go sample plugin, version-0.0 entry point. It decodes its
 * arguments with its own copy of the Go decode loop, prints them, and
 * always reports success.
 */
module GoSample {

  import opened ForeignMemory
  import Abi
  import ErrorCodes
  import Optional
  import GoHelper

  /**
   * The decode loop written inline in the entry point: the same shared
   * offset and C `int` length read as `makeGoArguments`, slot by slot into a
   * preallocated slice.
   */
  method InlineArguments(p: Platform, m: Memory, av: Abi.ArgVector) returns (arguments: seq<seq<byte>>)
    requires GoHelper.GoValid(p, m, av)
    ensures |arguments| == av.count
    ensures arguments == GoHelper.GoArguments(p, m, av)
  {
    arguments := seq(av.count, _ => []);
    var i := 0;
    while i < GoHelper.GoInt(p, av.count)
      invariant 0 <= i <= av.count
      invariant |arguments| == av.count
      invariant forall j :: 0 <= j < i ==> arguments[j] == GoHelper.GoArguments(p, m, av)[j]
    {
      arguments := arguments[i := GoHelper.ConvertEntry(p, m, av, i)];
      i := i + 1;
    }
  }

  /** `_MIST_PLUGIN_0_0_MAIN`: decode, print (not modelled), return `Success`. */
  method PluginMain(p: Platform, m: Memory, av: Abi.ArgVector) returns (status: byte)
    requires GoHelper.GoValid(p, m, av)
    ensures ErrorCodes.FromByte(status) == Optional.Some(ErrorCodes.Success)
  {
    var arguments := InlineArguments(p, m, av);
    status := 0;
  }
}

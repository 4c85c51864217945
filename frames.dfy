/** The price table the strategies read and annotate: a pandas DataFrame of daily bars indexed
    by timestamp, with the `Close` and `Volume` columns of the input and the derived columns
    (`SMA_short`, `Signal`, `Position`, ...) that signal generation adds by name. Open, High and
    Low are never read by the modelled code and are not represented. */
module Frames {
  import opened Series

  type Timestamp = int

  class Frame {
    const index: seq<Timestamp>
    const close: seq<real>
    const volume: seq<real>
    var columns: map<string, Column>

    /** Every column has one entry per row of the index. */
    predicate Valid()
      reads this
    {
      && |close| == |index|
      && |volume| == |index|
      && forall name :: name in columns ==> |columns[name]| == |index|
    }

    constructor (index: seq<Timestamp>, close: seq<real>, volume: seq<real>, columns: map<string, Column>)
      requires |close| == |index| && |volume| == |index|
      requires forall name :: name in columns ==> |columns[name]| == |index|
      ensures Valid()
      ensures this.index == index && this.close == close && this.volume == volume
      ensures this.columns == columns
    {
      this.index := index;
      this.close := close;
      this.volume := volume;
      this.columns := columns;
    }
  }
}

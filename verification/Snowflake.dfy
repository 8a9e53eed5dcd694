/** base/utils/snowflake.go: reading a snowflake id from text. */
module Snowflake {
  import opened Common
  import opened Decimal

  /** Milliseconds of the library's default epoch (Twitter's, 4 November 2010). */
  const EPOCH_MS: int := 1288834974657
  /** Node and step bits below the timestamp. */
  const TIME_SHIFT: int := 0x40_0000

  /** Go's conversion of a uint64 to an int64. */
  function ToInt64(u: nat): (i: int)
    requires u < TWO_64
    ensures -TWO_63 <= i < TWO_63 && (i - u) % TWO_64 == 0
  {
    if u < TWO_63 then u else u - TWO_64
  }

  /** `ID.Time()`: the bits above the shift, plus the epoch. Dafny's division floors for this divisor, as `>>` does, and no positive id overflows. */
  function Time(id: int): (ms: int)
    ensures 0 < id < TWO_63 ==> EPOCH_MS <= ms < TWO_63
  {
    id / TIME_SHIFT + EPOCH_MS
  }

  function ValidSnowflakeID(text: string): (r: Option<int>) {
    var parsed := ParseUint64(text);
    if parsed.None? then None
    else
      assert parsed.value < TWO_64 by { ParseUint64Meaning(text); }
      var id := ToInt64(parsed.value);
      if id > 0 && Time(id) > 0 then Some(id) else None
  }

  /** Accepted texts are exactly the digit strings of values 1..2^63-1, and the id is that value. */
  lemma ValidSnowflakeIDMeaning(text: string)
    ensures ValidSnowflakeID(text)
            == if text != "" && AllDigits(text) && 0 < Value(text) < TWO_63 then Some(Value(text)) else None
  {
    ParseUint64Meaning(text);
  }

  lemma PrintedIDParses(id: int)
    requires -TWO_63 <= id < TWO_63
    ensures ValidSnowflakeID(PrintInt(id)) == if id > 0 then Some(id) else None
  {
    ValidSnowflakeIDMeaning(PrintInt(id));
    if id >= 0 {
      PrintNatValue(id);
    } else {
      assert PrintInt(id)[0] == '-';
    }
  }
}

/**
 * The client's display formatters: the `-` placeholder each uses for a
 * missing value, and text truncation. Date rendering (dayjs) and
 * `toFixed` are given as functions.
 */
module ClientFormat {
  import opened Common
  import opened Js

  const Placeholder: string := "-"

  /** `formatDateTime(date, format)`: a falsy date is `-`, anything else is what dayjs renders. */
  function FormatDateTime(date: JsVal, format: string, dayjs: (JsVal, string) -> string): (r: string)
    ensures !date.Truthy() ==> r == Placeholder
    ensures date.Truthy() ==> r == dayjs(date, format)
  {
    if !date.Truthy() then Placeholder else dayjs(date, format)
  }

  /** `formatPercent(value, decimals)`: only `null` and `undefined` are `-`; anything else ends with `%`. */
  function FormatPercent(value: Option<real>, decimals: nat, toFixed: (real, nat) -> string): (r: string)
    ensures value.None? <==> r == Placeholder
    ensures value.Some? ==> r == toFixed(value.value * 100.0, decimals) + "%"
  {
    if value.None? then Placeholder
    else
      var r := toFixed(value.value * 100.0, decimals) + "%";
      assert r[|r| - 1] == '%';
      r
  }

  /** `formatNumber(value, decimals)`: only `null` and `undefined` are `-`. */
  function FormatNumber(value: Option<real>, decimals: nat, toFixed: (real, nat) -> string): (r: string)
    ensures value.None? ==> r == Placeholder
    ensures value.Some? ==> r == toFixed(value.value, decimals)
  {
    if value.None? then Placeholder else toFixed(value.value, decimals)
  }

  /** The default `maxLength` of `truncateText`. */
  const DefaultMaxLength: int := 50

  /** `truncateText(text, maxLength)`: `-` for falsy text, the text when it fits, else its head and `...`. */
  function TruncateText(text: Option<string>, maxLength: int): (r: string)
    ensures !PyTruthy(text) ==> r == Placeholder
    ensures PyTruthy(text) && |text.value| <= maxLength ==> r == text.value
    ensures PyTruthy(text) && |text.value| > maxLength ==>
              var keep := Max(0, maxLength);
              |r| == keep + 3 && r[..keep] == text.value[..keep] && r[keep..] == "..."
  {
    if !PyTruthy(text) then Placeholder
    else if |text.value| <= maxLength then text.value
    else text.value[..Max(0, maxLength)] + "..."
  }

  /**
   * Zero is a date to hide but a number to show: the two placeholder rules
   * differ. Truncated text is never longer than the limit plus the three dots,
   * nor longer than the text unless it was cut; and truncating what was
   * already truncated changes nothing, as long as the placeholder itself fits.
   */
  lemma FormatLaws(format: string, dayjs: (JsVal, string) -> string, toFixed: (real, nat) -> string,
                   text: Option<string>, maxLength: nat)
    ensures FormatDateTime(Num(0.0), format, dayjs) == Placeholder
    ensures FormatPercent(Some(0.0), 2, toFixed) != Placeholder
    ensures text.Some? && text.value != "" ==> |TruncateText(text, maxLength)| <= maxLength + 3
    ensures text.Some? && text.value != "" ==>
              |TruncateText(text, maxLength)| <= |text.value| || |text.value| > maxLength
    ensures maxLength >= |Placeholder| ==>
              TruncateText(Some(TruncateText(text, maxLength)), maxLength) == TruncateText(text, maxLength)
  {
    var r := TruncateText(text, maxLength);
    if PyTruthy(text) && |text.value| > maxLength {
      assert r[..maxLength] == text.value[..maxLength];
    }
  }
}

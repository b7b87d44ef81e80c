/** The two Python string operations several stores share. */
module Strings {

  /** `text[:n]` */
  function Clip(text: string, n: nat): string
  {
    if |text| <= n then text else text[..n]
  }

  /** `text.strip()` */
  function Strip(text: string): string
    decreases |text|
  {
    if text == "" then ""
    else if text[0] in {' ', '\t', '\n', '\r'} then Strip(text[1..])
    else if text[|text| - 1] in {' ', '\t', '\n', '\r'} then Strip(text[..|text| - 1])
    else text
  }
}

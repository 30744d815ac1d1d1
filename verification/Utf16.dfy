/** Text as the source sees it: sequences of UTF-16 code units, lone surrogates included. */
module Utf16 {
  type Unit = n: int | 0 <= n < 0x10000
  type Text = seq<Unit>
}

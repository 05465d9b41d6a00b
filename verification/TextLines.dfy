/** Cutting a text after each line feed, and putting the pieces together. */
module TextLines {
  /** Length of the first line with its line feed; the whole text when it has none. */
  function FirstLine(text: string): (n: nat)
    ensures n <= |text| && (text != [] ==> n > 0)
  {
    if text == [] then 0 else if text[0] == '\n' then 1 else 1 + FirstLine(text[1..])
  }

  function RawLines(text: string): seq<string> {
    if text == [] then [] else [text[..FirstLine(text)]] + RawLines(text[FirstLine(text)..])
  }

  function Flatten(lines: seq<string>): string {
    if lines == [] then [] else Flatten(lines[..|lines| - 1]) + lines[|lines| - 1]
  }
}

/** ASCII text as the pipeline sees it: white space, words and case. */
module Texts {

  predicate IsSpace(c: char) {
    9 <= c as int <= 13 || 28 <= c as int <= 32
  }

  predicate IsUpper(c: char) { 'A' <= c <= 'Z' }

  function LowerChar(c: char): char {
    if IsUpper(c) then (c as int + 32) as char else c
  }

  predicate IsAlphanumeric(c: char) {
    '0' <= c <= '9' || 'a' <= c <= 'z'
  }

  function StripLeft(text: string): string {
    if text != "" && IsSpace(text[0]) then StripLeft(text[1..]) else text
  }

  function StripRight(text: string): string {
    if text != "" && IsSpace(text[|text| - 1]) then StripRight(text[..|text| - 1]) else text
  }

  function Strip(text: string): string {
    StripRight(StripLeft(text))
  }

  function WordsFrom(text: string, inWord: bool): nat {
    if text == "" then 0
    else if IsSpace(text[0]) then WordsFrom(text[1..], false)
    else (if inWord then 0 else 1) + WordsFrom(text[1..], true)
  }

  /** How many words a text splits into. */
  function Words(text: string): nat {
    WordsFrom(text, false)
  }
}

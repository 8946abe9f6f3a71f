/**
  Lower-casing of menu input. The menus compare `choice.ToLower()` with
  fixed lower-case words; this module models that conversion for the
  ASCII letters A-Z, which is all the words compared against use.
 */
module Text {

  predicate IsUpper(c: char) {
    'A' <= c <= 'Z'
  }

  function LowerChar(c: char): char {
    if IsUpper(c) then (c as int + 32) as char else c
  }

  /** `s.ToLower()`: every letter A-Z replaced by its lower-case form, nothing else touched. */
  function ToLower(s: string): (r: string)
    ensures |r| == |s|
    ensures forall i :: 0 <= i < |s| ==> r[i] == LowerChar(s[i])
  {
    if s == [] then [] else [LowerChar(s[0])] + ToLower(s[1..])
  }

  /** Lower-casing twice is lower-casing once. */
  lemma ToLowerIdempotent(s: string)
    ensures ToLower(ToLower(s)) == ToLower(s)
  {
  }

  /** Exactly two input lines lower-case to "q": the menus' quit key in either case. */
  lemma QuitSpellings(s: string)
    ensures ToLower(s) == "q" <==> s == "q" || s == "Q"
  {
    if ToLower(s) == "q" {
      assert |s| == 1;
      assert LowerChar(s[0]) == 'q';
      assert s == [s[0]];
    }
  }
}

/** Character classification of the "C" locale, restricted to ASCII: the
    model of std::toupper, std::tolower and std::isdigit as the name rules use
    them. Characters outside 'a'..'z' / 'A'..'Z' are their own case forms. */
module Ascii {

  predicate IsLowerLetter(c: char) { 'a' <= c <= 'z' }

  predicate IsUpperLetter(c: char) { 'A' <= c <= 'Z' }

  predicate IsDigit(c: char) { '0' <= c <= '9' }

  /** std::toupper: maps a lower-case letter to its upper-case form, which
      std::tolower maps back, and leaves the result free of lower case. */
  function ToUpper(c: char): (u: char)
    ensures IsLowerLetter(c) ==> IsUpperLetter(u) && u as int == c as int - 32
    ensures !IsLowerLetter(c) ==> u == c
    ensures !IsLowerLetter(u) && (IsLowerLetter(c) ==> ToLower(u) == c)
  {
    if IsLowerLetter(c) then (c as int - 32) as char else c
  }

  /** std::tolower: maps an upper-case letter to its lower-case form, and
      leaves the result free of upper case. */
  function ToLower(c: char): (l: char)
    ensures IsUpperLetter(c) ==> IsLowerLetter(l) && l as int == c as int + 32
    ensures !IsUpperLetter(c) ==> l == c
    ensures !IsUpperLetter(l)
  {
    if IsUpperLetter(c) then (c as int + 32) as char else c
  }

  /** A character equals its own upper-case form exactly when it is not a
      lower-case letter, and its own lower-case form exactly when it is not an
      upper-case letter. */
  lemma CaseFixedPoints(c: char)
    ensures c == ToUpper(c) <==> !IsLowerLetter(c)
    ensures c == ToLower(c) <==> !IsUpperLetter(c)
  {
  }
}

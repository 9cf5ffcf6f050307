/**
 * `getInitials` of the users page (app/dashboard/users/page.tsx): the avatar
 * fallback text, the upper-cased first letters of the first and last name, or "U"
 * when both are missing.
 */
module UsersInitials {
  import opened ClockText

  /** `(name || "")`: a null name reads as the empty string. */
  function OrEmpty(name: Option<string>): (s: string)
    ensures name.None? ==> s == ""
    ensures name.Some? ==> s == name.value
  {
    match name
    case None => ""
    case Some(v) => v
  }

  /** `charAt(0)`: the first character, or "" for an empty string. */
  function FirstChar(s: string): (r: string)
    ensures |r| <= 1
    ensures r == "" <==> s == ""
    ensures s != "" ==> r == [s[0]]
  {
    if s == "" then "" else [s[0]]
  }

  /** `toUpperCase` on ASCII letters; other characters are kept. */
  function UpperChar(c: char): (u: char)
    ensures 'a' <= c <= 'z' ==> 'A' <= u <= 'Z'
    ensures !('a' <= c <= 'z') ==> u == c
  {
    if 'a' <= c <= 'z' then (c as int - 'a' as int + 'A' as int) as char else c
  }

  function Upper(s: string): (r: string)
    ensures |r| == |s|
    ensures forall i :: 0 <= i < |s| ==> r[i] == UpperChar(s[i])
  {
    if s == "" then "" else [UpperChar(s[0])] + Upper(s[1..])
  }

  /** Line 73: the two first letters, upper-cased, or "U" when that is empty. */
  function GetInitials(firstName: Option<string>, lastName: Option<string>): (r: string)
    ensures r != ""
    ensures 1 <= |r| <= 2
  {
    var initials := Upper(FirstChar(OrEmpty(firstName)) + FirstChar(OrEmpty(lastName)));
    if initials == "" then "U" else initials
  }

  /** The initials are the upper-cased first letters of the names that are present
      and non-empty, in order; with neither, "U". */
  lemma InitialsAreFirstLetters(firstName: Option<string>, lastName: Option<string>)
    ensures var f := OrEmpty(firstName);
            var l := OrEmpty(lastName);
            (f == "" && l == "" ==> GetInitials(firstName, lastName) == "U")
            && (f != "" && l != "" ==> GetInitials(firstName, lastName) == [UpperChar(f[0]), UpperChar(l[0])])
            && (f != "" && l == "" ==> GetInitials(firstName, lastName) == [UpperChar(f[0])])
            && (f == "" && l != "" ==> GetInitials(firstName, lastName) == [UpperChar(l[0])])
  {
    var f := OrEmpty(firstName);
    var l := OrEmpty(lastName);
    if f != "" && l != "" {
      assert FirstChar(f) + FirstChar(l) == [f[0], l[0]];
    } else if f != "" {
      assert FirstChar(f) + FirstChar(l) == [f[0]];
    } else if l != "" {
      assert FirstChar(f) + FirstChar(l) == [l[0]];
    }
  }

  /** Null and empty names give the same initials. */
  lemma NullIsEmpty(lastName: Option<string>)
    ensures GetInitials(None, lastName) == GetInitials(Some(""), lastName)
  {
  }

  lemma Examples()
    ensures GetInitials(Some("ada"), Some("lovelace")) == "AL"
    ensures GetInitials(None, None) == "U"
    ensures GetInitials(Some(""), Some("smith")) == "S"
  {
    InitialsAreFirstLetters(Some("ada"), Some("lovelace"));
    InitialsAreFirstLetters(Some(""), Some("smith"));
  }
}

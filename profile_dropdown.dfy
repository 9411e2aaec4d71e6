/** The account menu of client/src/components/ProfileDropdown.jsx: the avatar initials,
    the name and the address shown for the signed-in user, and its logout entry. */
module ProfileDropdown {
  import opened Values
  import opened JsText
  import opened Sequences
  import opened AuthContext

  predicate IsNonEmpty(w: string) { w != [] }

  /** `w.charAt(0)`: the first character, or "" for an empty string. */
  function FirstChar(w: string): (r: string)
    ensures |r| == (if w == [] then 0 else 1)
    ensures w != [] ==> r[0] == w[0]
  {
    if w == [] then "" else [w[0]]
  }

  /** `words.map(w => w.charAt(0)).join('')`. */
  function FirstChars(words: seq<string>): (r: string)
    ensures |r| <= |words|
    ensures (forall k | 0 <= k < |words| :: words[k] != []) ==> |r| == |words|
  {
    if words == [] then "" else FirstChar(words[0]) + FirstChars(words[1..])
  }

  /** Every part of the trimmed name between single spaces, with the empty ones dropped. */
  function Words(name: string): (ws: seq<string>)
    ensures forall k | 0 <= k < |ws| :: ws[k] != [] && ' ' !in ws[k]
  {
    Select(Split(Trim(name), ' '), IsNonEmpty)
  }

  /** `getInitials`: "U" for a missing or blank name, the upper-cased first character of
      a single word, and of the first two words otherwise. */
  function GetInitials(name: Option<string>): (r: string)
    ensures 1 <= |r| <= 2
    ensures name.None? || Trim(name.value) == "" ==> r == "U"
    ensures forall i | 0 <= i < |r| :: !IsAsciiLower(r[i])
  {
    if name.None? || name.value == "" then "U"
    else if Trim(name.value) == "" then "U"
    else
      var words := Words(name.value);
      if |words| == 0 then "U"
      else if |words| == 1 then
        UpperMeaning(FirstChar(words[0]));
        Upper(FirstChar(words[0]))
      else
        UpperMeaning(FirstChar(words[0]) + FirstChar(words[1]));
        Upper(FirstChar(words[0]) + FirstChar(words[1]))
  }

  /** A name written as its words separated by runs of single spaces has those words:
      repeated spaces produce empty pieces, and empty pieces are dropped. */
  lemma WordsOfJoin(parts: seq<string>)
    requires |parts| >= 1
    requires forall k | 0 <= k < |parts| :: ' ' !in parts[k]
    requires Trim(Join(parts, ' ')) == Join(parts, ' ')
    ensures Words(Join(parts, ' ')) == Select(parts, IsNonEmpty)
  {
    SplitJoin(parts, ' ');
  }

  /** A trimmed, non-blank name has at least one word, and the first word starts the name. */
  lemma FirstWordStartsName(name: string)
    requires Trim(name) == name && name != ""
    ensures Words(name) != [] && Words(name)[0][0] == name[0]
  {
    var parts := Split(name, ' ');
    assert !IsWhite(name[0]);
    var i := IndexOf(name, ' ');
    assert i > 0;
    assert parts[0] == name[..i];
    assert IsNonEmpty(parts[0]);
    SelectFirst(parts, IsNonEmpty);
  }

  /** The first element kept by `Select` is the first element of the input when that one
      is kept. */
  lemma SelectFirst<T>(s: seq<T>, keep: T -> bool)
    requires s != [] && keep(s[0])
    ensures Select(s, keep) != [] && Select(s, keep)[0] == s[0]
  {
    assert s == [s[0]] + s[1..];
  }

  /** The initials of a non-blank name are the upper-cased first characters of its first
      one or two words, whichever the name has. */
  lemma GetInitialsOfWords(name: string)
    requires Trim(name) != ""
    ensures var ws := Words(name);
      |ws| >= 1 &&
      GetInitials(Some(name)) == Upper(FirstChars(ws[..if |ws| == 1 then 1 else 2]))
  {
    TrimIdempotent(name);
    FirstWordStartsName(Trim(name));
    var ws := Words(name);
    assert ws == Words(Trim(name));
    if |ws| == 1 {
      assert FirstChars(ws[..1]) == FirstChar(ws[0]) + FirstChars([]);
    } else {
      assert ws[..2][1..] == [ws[1]];
      assert FirstChars(ws[..2]) == FirstChar(ws[0]) + (FirstChar(ws[1]) + FirstChars([]));
    }
  }

  /** `getDisplayName`: the trimmed name, or "User" when it is missing or blank. */
  function GetDisplayName(user: Option<User>): (r: string)
    ensures r != ""
    ensures user.Some? && Trim(user.value.name) != "" ==> r == Trim(user.value.name)
    ensures user.None? || Trim(user.value.name) == "" ==> r == "User"
  {
    if user.Some? && user.value.name != "" then
      (if Trim(user.value.name) != "" then Trim(user.value.name) else "User")
    else "User"
  }

  /** `getDisplayEmail`: the trimmed address, or "No email" when it is missing or blank. */
  function GetDisplayEmail(user: Option<User>): (r: string)
    ensures r != ""
    ensures user.Some? && Trim(user.value.email) != "" ==> r == Trim(user.value.email)
    ensures user.None? || Trim(user.value.email) == "" ==> r == "No email"
  {
    if user.Some? && user.value.email != "" then
      (if Trim(user.value.email) != "" then Trim(user.value.email) else "No email")
    else "No email"
  }

  /** The menu is closed after a logout, and the session shows no user, so the menu
      then reads "User" and "No email" with the initials "U". */
  method HandleLogout(auth: AuthState) returns (isOpen: bool, name: string, email: string, initials: string)
    modifies auth
    ensures !isOpen
    ensures !auth.isAuthenticated && auth.user.None?
    ensures name == "User" && email == "No email" && initials == "U"
  {
    auth.Logout();
    isOpen := false;
    name := GetDisplayName(auth.user);
    email := GetDisplayEmail(auth.user);
    initials := GetInitials(Some(name));
  }
}

/** The profile page of client/src/pages/Profile.jsx: its own avatar initials, which
    differ from the account menu's on blank names, and its form, whose theme field
    switches the application theme as soon as it changes. */
module ProfilePage {
  import opened Values
  import opened JsText
  import opened Sequences
  import opened AuthContext
  import opened ThemeContext
  import opened ProfileDropdown

  /** `getInitials`: "U" for a missing or empty name, otherwise the first characters of
      the pieces between single spaces, upper-cased, cut to two. */
  function Initials(name: Option<string>): (r: string)
    ensures |r| <= 2
    ensures name.None? || name.value == "" ==> r == "U"
  {
    if name.None? || name.value == "" then "U"
    else
      var s := Upper(FirstChars(Split(name.value, ' ')));
      s[..if |s| < 2 then |s| else 2]
  }

  /** Empty pieces contribute no character. */
  lemma {:induction false} FirstCharsSkipsEmpty(parts: seq<string>)
    ensures FirstChars(parts) == FirstChars(Select(parts, IsNonEmpty))
  {
    if parts != [] {
      FirstCharsSkipsEmpty(parts[1..]);
      if IsNonEmpty(parts[0]) {
        assert Select(parts, IsNonEmpty) == [parts[0]] + Select(parts[1..], IsNonEmpty);
        assert ([parts[0]] + Select(parts[1..], IsNonEmpty))[1..] == Select(parts[1..], IsNonEmpty);
      }
    }
  }

  /** The first `k` initials of words are the initials of the first `k` words. */
  lemma {:induction false} FirstCharsPrefix(words: seq<string>, k: nat)
    requires k <= |words|
    requires forall j | 0 <= j < |words| :: words[j] != []
    ensures FirstChars(words)[..k] == FirstChars(words[..k])
  {
    if k > 0 {
      FirstCharsPrefix(words[1..], k - 1);
      assert words[..k][1..] == words[1..][..k - 1];
      assert FirstChars(words) == FirstChar(words[0]) + FirstChars(words[1..]);
    }
  }

  /** Upper-casing commutes with taking a prefix. */
  lemma UpperPrefix(s: string, k: nat)
    requires k <= |s|
    ensures Upper(s)[..k] == Upper(s[..k])
  {
  }

  /** The page's initials are the upper-cased first characters of the first two
      non-empty pieces of the name: runs of spaces are skipped. */
  lemma InitialsOfNonEmptyPieces(name: string)
    requires name != ""
    ensures var ws := Select(Split(name, ' '), IsNonEmpty);
      Initials(Some(name)) == Upper(FirstChars(ws[..if |ws| < 2 then |ws| else 2]))
  {
    var ws := Select(Split(name, ' '), IsNonEmpty);
    FirstCharsSkipsEmpty(Split(name, ' '));
    var k := if |ws| < 2 then |ws| else 2;
    FirstCharsPrefix(ws, k);
    UpperPrefix(FirstChars(ws), k);
  }

  /** On a name with no white space at either end, the page and the account menu show
      the same initials. */
  lemma SameInitialsOnTrimmedNames(name: string)
    requires Trim(name) == name && name != ""
    ensures Initials(Some(name)) == GetInitials(Some(name))
  {
    InitialsOfNonEmptyPieces(name);
    GetInitialsOfWords(name);
  }

  /** The pieces of a name made of spaces only are all empty. */
  lemma {:induction false} SpacesHaveNoInitials(s: string)
    requires forall i | 0 <= i < |s| :: s[i] == ' '
    ensures FirstChars(Split(s, ' ')) == ""
    decreases |s|
  {
    if s != [] {
      assert IndexOf(s, ' ') == 0;
      SpacesHaveNoInitials(s[1..]);
      assert Split(s, ' ') == [""] + Split(s[1..], ' ');
    }
  }

  /** A name of spaces only gets no initials on the page, but "U" in the account menu. */
  lemma BlankNameDiffers(name: string)
    requires name != "" && forall i | 0 <= i < |name| :: name[i] == ' '
    ensures Initials(Some(name)) == ""
    ensures GetInitials(Some(name)) == "U"
  {
    SpacesHaveNoInitials(name);
    TrimEmpty(name);
  }

  /** A value of the form: the text fields hold strings, the notifications box a flag. */
  datatype FormValue = Text(text: string) | Flag(on: bool)

  class ProfileState {
    var formData: map<string, FormValue>

    /** The initial form from the signed-in user and the current theme. */
    constructor(user: Option<User>, theme: ThemeState)
      requires theme.Valid()
      ensures formData == map[
        "name" := Text(if user.Some? then user.value.name else ""),
        "email" := Text(if user.Some? then user.value.email else ""),
        "bio" := Text(""),
        "timezone" := Text("UTC"),
        "notifications" := Flag(true),
        "theme" := Text(theme.CurrentTheme())]
    {
      formData := map[
        "name" := Text(if user.Some? then user.value.name else ""),
        "email" := Text(if user.Some? then user.value.email else ""),
        "bio" := Text(""),
        "timezone" := Text("UTC"),
        "notifications" := Flag(true),
        "theme" := Text(theme.CurrentTheme())];
    }

    /** `handleInputChange`: the named field takes the box's state for a checkbox and the
        text otherwise; a change of the theme field also switches the theme, with the
        system preference `prefersDark` used for "auto". */
    method HandleInputChange(name: string, value: string, isCheckbox: bool, checked: bool,
                             theme: ThemeState, prefersDark: bool)
      requires theme.Valid()
      modifies this, theme
      ensures formData == old(formData)[name := if isCheckbox then Flag(checked) else Text(value)]
      ensures theme.Valid()
      ensures name != "theme" ==>
        theme.darkMode == old(theme.darkMode) && theme.stored == old(theme.stored)
        && theme.dataTheme == old(theme.dataTheme)
      ensures name == "theme" && (value == "dark" || value == "light") ==> theme.CurrentTheme() == value
      ensures name == "theme" && value == "auto" ==> theme.darkMode == prefersDark
    {
      formData := formData[name := if isCheckbox then Flag(checked) else Text(value)];
      if name == "theme" {
        theme.SetTheme(value, prefersDark);
      }
    }
  }
}

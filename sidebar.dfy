/**
 * The sidebar's user badge: the name it shows and the initials in the
 * avatar. Text the code treats as absent (`undefined`, a missing user) is "".
 */
module Sidebar {
  import opened Text

  /** `profile.name || full_name || email.split("@")[0] || "User"`. */
  function DisplayName(profileName: string, fullName: string, email: string): (r: string)
    ensures r != ""
    ensures profileName != "" ==> r == profileName
    ensures profileName == "" && fullName != "" ==> r == fullName
    ensures profileName == "" && fullName == "" ==> r == (if SplitOn(email, '@')[0] != "" then SplitOn(email, '@')[0] else "User")
    ensures profileName == "" && fullName == "" && email != "" && email[0] != '@' ==> '@' !in r && r == email[..|r|]
  {
    if profileName != "" then profileName
    else if fullName != "" then fullName
    else
      var local := SplitOn(email, '@')[0];
      if local != "" then
        assert local == email[..|local|] by {
          if '@' in email { assert local == email[..IndexOf(email, '@')]; }
        }
        local
      else "User"
  }

  /** `profile.name || full_name`: the name the initials are taken from. */
  function NameOf(profileName: string, fullName: string): (r: string)
    ensures r == "" <==> profileName == "" && fullName == ""
  {
    if profileName != "" then profileName else fullName
  }

  /** No two spaces are adjacent and none starts or ends the name. */
  predicate NoEmptyWord(name: string) {
    name == "" || forall k :: 0 <= k < |SplitOn(name, ' ')| ==> SplitOn(name, ' ')[k] != ""
  }

  /** `${w[0]}`: the first character, or the text "undefined" for an empty word. */
  function FirstChar(w: string): (r: string)
    ensures w != "" ==> r == [w[0]]
  {
    if w == "" then "undefined" else [w[0]]
  }

  /** `getInitials` as written. */
  function Initials(profileName: string, fullName: string, email: string): (r: string)
    ensures r != ""
  {
    var name := NameOf(profileName, fullName);
    if name != "" then
      var names := SplitOn(name, ' ');
      if |names| > 1 then Upper(FirstChar(names[0]) + FirstChar(names[1]))
      else Upper(Prefix(names[0], 2))
    else if email != "" then Upper(Prefix(email, 2))
    else "U"
  }

  /**
   * For names whose first two words are separated by a single space, the
   * initials are the upper-cased first letters of those words; a one-word name
   * gives its first two letters; without a name the email's first two letters
   * are used, and "U" without an email. The profile name comes first.
   */
  lemma InitialsCases(profileName: string, fullName: string, email: string)
    ensures var name := NameOf(profileName, fullName);
      var names := SplitOn(name, ' ');
      && (name != "" && |names| > 1 && names[0] != "" && names[1] != "" ==>
            Initials(profileName, fullName, email) == Upper([names[0][0], names[1][0]]))
      && (name != "" && ' ' !in name ==> Initials(profileName, fullName, email) == Upper(Prefix(name, 2)))
      && (name == "" && email != "" ==> Initials(profileName, fullName, email) == Upper(Prefix(email, 2)))
      && (name == "" && email == "" ==> Initials(profileName, fullName, email) == "U")
  {
  }

  /** Two words separated by two spaces split into the first word, an empty piece and the second. */
  lemma SplitDoubleSpace(a: string, b: string)
    requires ' ' !in a && ' ' !in b
    ensures SplitOn(a + "  " + b, ' ') == [a, "", b]
  {
    var s := a + "  " + b;
    assert s[|a|] == ' ';
    var i := IndexOf(s, ' ');
    assert i == |a|;
    assert s[..i] == a;
    var t := s[i + 1..];
    assert t == " " + b;
    assert IndexOf(t, ' ') == 0 && t[1..] == b;
    assert SplitOn(t, ' ') == [""] + SplitOn(b, ' ');
  }

  /**
   * A doubled space between two words makes the second piece empty, and its
   * first character renders as the text "undefined": the avatar shows the
   * first letter followed by "UNDEFINED".
   */
  lemma InitialsDoubleSpace(a: string, b: string)
    requires a != "" && ' ' !in a && ' ' !in b
    ensures Initials(a + "  " + b, "", "") == Upper([a[0]] + "undefined")
  {
    SplitDoubleSpace(a, b);
  }

  /** The words of a name: the pieces between spaces that are not empty. */
  function Words(pieces: seq<string>): (r: seq<string>)
    ensures forall k :: 0 <= k < |r| ==> r[k] != "" && r[k] in pieces
    ensures (forall k :: 0 <= k < |pieces| ==> pieces[k] != "") ==> r == pieces
  {
    if pieces == [] then []
    else if pieces[0] == "" then Words(pieces[1..])
    else [pieces[0]] + Words(pieces[1..])
  }

  /**
   * The initials with empty words skipped: the first letters of the first two
   * words, the first two letters of a single word, and the email or "U" when
   * the name has no word at all.
   */
  function InitialsOfWords(profileName: string, fullName: string, email: string): (r: string)
    ensures 1 <= |r| <= 2
  {
    var name := NameOf(profileName, fullName);
    var words := Words(SplitOn(name, ' '));
    if |words| > 1 then Upper([words[0][0], words[1][0]])
    else if |words| == 1 then Upper(Prefix(words[0], 2))
    else if email != "" then Upper(Prefix(email, 2))
    else "U"
  }

  /** Where the name has no empty word, both versions agree. */
  lemma InitialsAgree(profileName: string, fullName: string, email: string)
    requires NoEmptyWord(NameOf(profileName, fullName))
    ensures InitialsOfWords(profileName, fullName, email) == Initials(profileName, fullName, email)
  {
    var name := NameOf(profileName, fullName);
    var pieces := SplitOn(name, ' ');
    if name == "" {
      assert pieces == [""];
      assert Words(pieces) == Words([]);
    } else {
      assert Words(pieces) == pieces;
      if |pieces| > 1 {
        assert FirstChar(pieces[0]) + FirstChar(pieces[1]) == [pieces[0][0], pieces[1][0]];
      }
    }
  }

  /** With empty words skipped, the same name gets the initials of its two words. */
  lemma InitialsOfWordsDoubleSpace(a: string, b: string)
    requires a != "" && b != "" && ' ' !in a && ' ' !in b
    ensures InitialsOfWords(a + "  " + b, "", "") == Upper([a[0], b[0]])
  {
    SplitDoubleSpace(a, b);
    assert Words([a, "", b]) == [a, b] by {
      assert [a, "", b][1..] == ["", b];
      assert ["", b][1..] == [b];
      assert Words([b]) == [b];
    }
  }
}

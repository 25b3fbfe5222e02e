/**
 * The header's user menu: the avatar initials, the dropdown's label and
 * target, and the login button shown to signed-out visitors.
 */
module UserMenu {
  import opened Wrappers
  import opened Text
  import opened EmailHelper
  import opened UserRecord
  import opened ClientAuth

  /** The JavaScript values the initials expression can produce. */
  datatype JsValue = Str(s: string) | Undefined | NaN

  /** `s[i]`: a one-character string, or undefined past the end. */
  function CharAt(s: string, i: nat): (v: JsValue)
    ensures v.Undefined? <==> i >= |s|
  {
    if i < |s| then Str([s[i]]) else Undefined
  }

  /** JavaScript `+` on these values: undefined turns into the text "undefined" next to a string, and two undefined make NaN. */
  function Plus(a: JsValue, b: JsValue): JsValue {
    match (a, b)
    case (Str(x), Str(y)) => Str(x + y)
    case (Str(x), Undefined) => Str(x + "undefined")
    case (Undefined, Str(y)) => Str("undefined" + y)
    case (Str(x), NaN) => Str(x + "NaN")
    case (NaN, Str(y)) => Str("NaN" + y)
    case _ => NaN
  }

  /** What React shows for a value: nothing for undefined. */
  function Shown(v: JsValue): string {
    match v
    case Str(s) => s
    case Undefined => ""
    case NaN => "NaN"
  }

  /** `name.split(" ")`: the pieces between single spaces, empty ones included. */
  function SpaceParts(name: string): (parts: seq<string>)
    ensures |parts| >= 1
  {
    Split(name, " ")
  }

  /** `getUserInitials` as written: first characters of the first two parts, or the first two characters of a single part. */
  function GetUserInitials(name: string): (r: JsValue)
    ensures |SpaceParts(name)| == 1 ==> r.Str? && |r.s| <= 2
  {
    var parts := SpaceParts(name);
    if |parts| > 1 then Plus(CharAt(parts[0], 0), CharAt(parts[1], 0))
    else Str(parts[0][..if |parts[0]| < 2 then |parts[0]| else 2])
  }

  // ---------------------------------------------------------------- split facts

  lemma {:induction false} SplitOfWord(w: string)
    requires ' ' !in w
    ensures Split(w, " ") == [w]
    decreases |w|
  {
    if |w| >= 1 {
      assert w[..1] != " " by { assert w[..1][0] == w[0]; }
      SplitOfWord(w[1..]);
      assert [w[0]] + w[1..] == w;
    }
  }

  lemma {:induction false} SplitOfWordThen(w: string, rest: string)
    requires ' ' !in w
    ensures Split(w + " " + rest, " ") == [w] + Split(rest, " ")
    decreases |w|
  {
    var s := w + " " + rest;
    if w == [] {
      assert s[..1] == " " && s[1..] == rest;
    } else {
      assert s[..1] != " " by { assert s[..1][0] == w[0]; }
      assert s[1..] == w[1..] + " " + rest;
      SplitOfWordThen(w[1..], rest);
      assert [w[0]] + w[1..] == w;
    }
  }

  /** Every character of every part is a non-space character of the name. */
  lemma {:induction false} PartsComeFromName(s: string)
    ensures forall part, c :: part in Split(s, " ") && c in part ==> c in s && c != ' '
    decreases |s|
  {
    if |s| >= 1 {
      PartsComeFromName(s[1..]);
      var t := Split(s[1..], " ");
      if s[..1] == " " {
        assert s[0] == ' ';
      } else {
        assert s[0] != ' ' by { assert s[..1][0] == s[0]; }
        forall part, c | part in Split(s, " ") && c in part ensures c in s && c != ' ' {
          if part == [s[0]] + t[0] {
            assert t[0] in t;
          } else {
            assert part in t[1..];
            assert part in t;
          }
        }
      }
    }
  }

  /** A name with a non-space character has a non-empty part. */
  lemma {:induction false} SomePartIsNonEmpty(s: string, i: nat)
    requires i < |s| && s[i] != ' '
    ensures exists part :: part in Split(s, " ") && part != ""
    decreases |s|
  {
    var t := Split(s[1..], " ");
    if s[..1] == " " {
      assert i > 0 by { assert s[..1][0] == s[0]; }
      SomePartIsNonEmpty(s[1..], i - 1);
      var part :| part in t && part != "";
      assert part in Split(s, " ");
    } else {
      assert ([s[0]] + t[0]) in Split(s, " ");
    }
  }

  // ---------------------------------------------------------------- as written

  /** Two words separated by one space give their first letters. */
  lemma InitialsOfTwoWords(first: string, last: string, more: string)
    requires first != "" && last != "" && ' ' !in first && ' ' !in last
    ensures GetUserInitials(first + " " + last) == Str([first[0], last[0]])
    ensures GetUserInitials(first + " " + last + " " + more) == Str([first[0], last[0]])
  {
    SplitOfWordThen(first, last);
    SplitOfWord(last);
    assert first + " " + last + " " + more == first + " " + (last + " " + more);
    SplitOfWordThen(first, last + " " + more);
    SplitOfWordThen(last, more);
  }

  /** A single word gives its first two characters, or the word itself when shorter. */
  lemma InitialsOfOneWord(w: string)
    requires ' ' !in w
    ensures GetUserInitials(w) == Str(if |w| < 2 then w else w[..2])
  {
    SplitOfWord(w);
  }

  /** A trailing space makes an empty second part, whose first character is undefined. */
  lemma TrailingSpaceShowsUndefined(w: string)
    requires w != "" && ' ' !in w
    ensures GetUserInitials(w + " ") == Str([w[0]] + "undefined")
  {
    SplitOfWordThen(w, "");
    assert w + " " + "" == w + " ";
    assert Split("", " ") == [""];
  }

  /** A name of one or two spaces has two empty leading parts: undefined plus undefined. */
  lemma SpacesOnlyShowNaN()
    ensures GetUserInitials(" ") == NaN
    ensures GetUserInitials("  ") == NaN
  {
    SplitOfWordThen("", " ");
    SplitOfWordThen("", "");
    assert "" + " " + " " == "  ";
    assert "" + " " + "" == " ";
  }

  // ---------------------------------------------------------------- corrected

  /** The non-empty parts of a name. */
  function Words(name: string): (ws: seq<string>)
    ensures forall w :: w in ws <==> w in SpaceParts(name) && w != ""
  {
    NonEmpty(SpaceParts(name))
  }

  function NonEmpty(parts: seq<string>): (r: seq<string>)
    ensures forall w :: w in r <==> w in parts && w != ""
  {
    if parts == [] then []
    else (if parts[0] != "" then [parts[0]] else []) + NonEmpty(parts[1..])
  }

  lemma SomeWordIfNonSpace(name: string)
    ensures (exists i :: 0 <= i < |name| && name[i] != ' ') ==> |Words(name)| >= 1
  {
    if exists i :: 0 <= i < |name| && name[i] != ' ' {
      var i :| 0 <= i < |name| && name[i] != ' ';
      SomePartIsNonEmpty(name, i);
      var part :| part in SpaceParts(name) && part != "";
      assert part in Words(name);
    }
  }

  /** The first character of each of the first two words, or the first two of a single word. */
  function InitialsOfWords(ws: seq<string>): string
    requires forall w :: w in ws ==> w != ""
  {
    if |ws| >= 2 then
      assert ws[0] in ws && ws[1] in ws;
      [ws[0][0], ws[1][0]]
    else if |ws| == 1 then
      if |ws[0]| < 2 then ws[0] else ws[0][..2]
    else ""
  }

  /** The initials taken from the words of a name are non-space characters of that name. */
  lemma WordInitialsComeFromName(name: string)
    ensures forall c :: c in InitialsOfWords(Words(name)) ==> c in name && c != ' '
    ensures (exists i :: 0 <= i < |name| && name[i] != ' ') ==> |InitialsOfWords(Words(name))| >= 1
  {
    var ws := Words(name);
    PartsComeFromName(name);
    SomeWordIfNonSpace(name);
    if |ws| >= 1 {
      assert ws[0] in ws;
    }
    forall c | c in InitialsOfWords(ws) ensures c in name && c != ' ' {
      if |ws| >= 2 {
        assert ws[0] in ws && ws[1] in ws;
        assert ws[0][0] in ws[0] && ws[1][0] in ws[1];
      } else {
        assert ws[0] in ws;
        var k :| 0 <= k < |InitialsOfWords(ws)| && InitialsOfWords(ws)[k] == c;
        assert c == ws[0][k];
      }
    }
  }

  /** Initials from the first two words, extra spaces ignored. */
  function IntendedInitials(name: string): (r: string)
    ensures |r| <= 2
    ensures forall c :: c in r ==> c in name && c != ' '
    ensures (exists i :: 0 <= i < |name| && name[i] != ' ') ==> |r| >= 1
  {
    WordInitialsComeFromName(name);
    InitialsOfWords(Words(name))
  }

  /** On names written with single spaces between words, the corrected initials are the ones the code shows. */
  lemma IntendedAgreesOnWellSpacedNames(first: string, last: string)
    requires first != "" && last != "" && ' ' !in first && ' ' !in last
    ensures IntendedInitials(first + " " + last) == Shown(GetUserInitials(first + " " + last))
    ensures IntendedInitials(first) == Shown(GetUserInitials(first))
  {
    InitialsOfTwoWords(first, last, "");
    SplitOfWordThen(first, last);
    SplitOfWord(last);
    SplitOfWord(first);
    InitialsOfOneWord(first);
    assert SpaceParts(first + " " + last) == [first, last];
    assert NonEmpty([last]) == [last] by { assert [last][1..] == []; }
    assert NonEmpty([first, last]) == [first, last] by { assert [first, last][1..] == [last]; }
    assert NonEmpty([first]) == [first] by { assert [first][1..] == []; }
  }

  /** A trailing space no longer shows "undefined": the initials are the word's first two characters. */
  lemma IntendedIgnoresTrailingSpace(w: string)
    requires w != "" && ' ' !in w
    ensures IntendedInitials(w + " ") == (if |w| < 2 then w else w[..2])
  {
    SplitOfWordThen(w, "");
    assert w + " " + "" == w + " ";
    assert Split("", " ") == [""];
    assert SpaceParts(w + " ") == [w, ""];
    assert NonEmpty([""]) == [] by { assert [""][1..] == []; }
    assert NonEmpty([w, ""]) == [w] by { assert [w, ""][1..] == [""]; }
  }

  // ---------------------------------------------------------------- the menu

  /** The avatar: initials when the user has a name with a non-space character, "U" otherwise. */
  function AvatarText(user: Option<ClientUser>): (r: string)
    ensures !(user.Some? && Truthy(user.value.name)) ==> r == "U"
    ensures user.Some? && Truthy(user.value.name) &&
            (exists i :: 0 <= i < |user.value.name.value| && user.value.name.value[i] != ' ') ==>
              r == IntendedInitials(user.value.name.value)
    ensures user.Some? && Truthy(user.value.name) &&
            (forall i :: 0 <= i < |user.value.name.value| ==> user.value.name.value[i] == ' ') ==>
              r == "U"
    ensures 1 <= |r| <= 2
  {
    if user.Some? && Truthy(user.value.name) && IntendedInitials(user.value.name.value) != "" then
      var name := user.value.name.value;
      assert IntendedInitials(name)[0] in name;
      IntendedInitials(name)
    else "U"
  }

  /** The dropdown's target: /admin only for the lowercase role "admin". */
  function RedirectTarget(user: Option<ClientUser>): (path: string)
    ensures path == "/admin" <==> user.Some? && user.value.role == Some("admin")
    ensures path == "/admin" || path == "/dashboard"
  {
    if user.Some? && user.value.role == Some("admin") then "/admin" else "/dashboard"
  }

  /** The dropdown's label, under the same test as the target. */
  function MenuLabel(user: Option<ClientUser>): (text: string)
    ensures text == "Admin Panel" <==> RedirectTarget(user) == "/admin"
    ensures text == "Admin Panel" || text == "Dashboard"
  {
    if user.Some? && user.value.role == Some("admin") then "Admin Panel" else "Dashboard"
  }

  /** What the menu offers: a login button, or the avatar with, when open, a labelled link. */
  datatype MenuView =
    | LoginButton(target: string)
    | Avatar(text: string, dropdown: Option<(string, string)>)

  function Menu(isAuthenticated: bool, user: Option<ClientUser>, show: bool): (v: MenuView)
    ensures !isAuthenticated ==> v == LoginButton("/login")
    ensures isAuthenticated ==> v.Avatar? && v.text == AvatarText(user) && (v.dropdown.Some? <==> show)
    ensures isAuthenticated && show ==> v.dropdown.value == (MenuLabel(user), RedirectTarget(user))
  {
    if !isAuthenticated then LoginButton("/login")
    else Avatar(AvatarText(user), if show then Some((MenuLabel(user), RedirectTarget(user))) else None)
  }

  /** The server only stores "ADMIN" and "USER", so a signed-in admin is sent to /dashboard too. */
  lemma ServerRolesAlwaysGoToDashboard(r: Role, name: Option<string>, verified: bool)
    ensures var user := Some(ClientUser(name, Some(RoleName(r)), verified));
            RedirectTarget(user) == "/dashboard" && MenuLabel(user) == "Dashboard"
  {
  }
}

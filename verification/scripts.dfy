/**
 * The helpers that static/js/profile_edit.js and static/js/artwork_update.js
 * both define, word for word: `getCookie`, the element ids of an editable
 * field, and `toggleEdit` / `toggleBackToText` over the page's elements.
 * JavaScript strings are modelled as sequences of characters.
 */
module ScriptHelpers {
  import opened Wrappers

  // ---------------------------------------------------------------------
  // String primitives with JavaScript's semantics

  /** `s.split(sep)` for a one-character separator: always at least one
      part (`"".split(";")` is `[""]`), and no part contains `sep`. */
  function Split(s: string, sep: char): (parts: seq<string>)
    ensures |parts| >= 1
    ensures forall k :: 0 <= k < |parts| ==> sep !in parts[k]
    decreases |s|
  {
    if |s| == 0 then [""]
    else
      var rest := Split(s[1..], sep);
      if s[0] == sep then [""] + rest
      else
        assert forall k :: 1 <= k < |rest| ==> ([[s[0]] + rest[0]] + rest[1..])[k] == rest[k];
        [[s[0]] + rest[0]] + rest[1..]
  }

  /** `parts.join(sep)`. */
  function Join(parts: seq<string>, sep: char): string
    requires |parts| >= 1
  {
    if |parts| == 1 then parts[0] else parts[0] + [sep] + Join(parts[1..], sep)
  }

  /** Splitting loses nothing: joining the parts gives the string back. */
  lemma {:induction false} JoinSplit(s: string, sep: char)
    ensures Join(Split(s, sep), sep) == s
    decreases |s|
  {
    if |s| > 0 {
      var rest := Split(s[1..], sep);
      JoinSplit(s[1..], sep);
      if s[0] == sep {
        assert Split(s, sep) == [""] + rest;
        assert Split(s, sep)[1..] == rest;
        assert [s[0]] + s[1..] == s;
      } else if |rest| == 1 {
        assert Split(s, sep) == [[s[0]] + rest[0]];
        assert [s[0]] + s[1..] == s;
      } else {
        var parts := Split(s, sep);
        assert parts == [[s[0]] + rest[0]] + rest[1..];
        assert parts[1..] == rest[1..];
        assert Join(rest, sep) == rest[0] + [sep] + Join(rest[1..], sep);
        assert [s[0]] + s[1..] == s;
      }
    }
  }

  /** The parts of `a;b` are the parts of `a` followed by those of `b`. */
  lemma {:induction false} SplitAppend(a: string, b: string, sep: char)
    ensures Split(a + [sep] + b, sep) == Split(a, sep) + Split(b, sep)
    decreases |a|
  {
    var s := a + [sep] + b;
    if |a| == 0 {
      assert s[1..] == b;
    } else {
      assert s[0] == a[0];
      assert s[1..] == a[1..] + [sep] + b;
      SplitAppend(a[1..], b, sep);
    }
  }

  /** The characters JavaScript's `trim` removes (WhiteSpace and
      LineTerminator of the ECMAScript grammar). */
  predicate IsJsSpace(c: char)
  {
    || c == '\t' || c == '\n' || c == '\U{000B}' || c == '\U{000C}' || c == '\r'
    || c == ' ' || c == '\U{00A0}' || c == '\U{1680}'
    || ('\U{2000}' <= c <= '\U{200A}')
    || c == '\U{2028}' || c == '\U{2029}' || c == '\U{202F}' || c == '\U{205F}'
    || c == '\U{3000}' || c == '\U{FEFF}'
  }

  /** `s` with its leading white space removed. */
  function TrimStart(s: string): string
  {
    if |s| > 0 && IsJsSpace(s[0]) then TrimStart(s[1..]) else s
  }

  /** `s` with its trailing white space removed. */
  function TrimEnd(s: string): string
  {
    if |s| > 0 && IsJsSpace(s[|s| - 1]) then TrimEnd(s[..|s| - 1]) else s
  }

  /** `s.trim()`. */
  function Trim(s: string): string
  {
    TrimEnd(TrimStart(s))
  }

  /** `TrimStart` drops exactly the leading white space. */
  lemma {:induction false} TrimStartDropsLeadingSpace(s: string)
    ensures var r := TrimStart(s);
      && |r| <= |s| && r == s[|s| - |r|..]
      && (forall k :: 0 <= k < |s| - |r| ==> IsJsSpace(s[k]))
      && (|r| > 0 ==> !IsJsSpace(r[0]))
  {
    if |s| > 0 && IsJsSpace(s[0]) {
      TrimStartDropsLeadingSpace(s[1..]);
    }
  }

  /** `TrimEnd` drops exactly the trailing white space. */
  lemma {:induction false} TrimEndDropsTrailingSpace(s: string)
    ensures var r := TrimEnd(s);
      && |r| <= |s| && r == s[..|r|]
      && (forall k :: |r| <= k < |s| ==> IsJsSpace(s[k]))
      && (|r| > 0 ==> !IsJsSpace(r[|r| - 1]))
  {
    if |s| > 0 && IsJsSpace(s[|s| - 1]) {
      TrimEndDropsTrailingSpace(s[..|s| - 1]);
    }
  }

  /** `s.trim()` is the part of `s` between its leading and trailing white
      space, and neither starts nor ends with white space. */
  lemma TrimIsInfix(s: string)
    ensures var r := Trim(s);
      && (|r| > 0 ==> !IsJsSpace(r[0]) && !IsJsSpace(r[|r| - 1]))
      && var i := |s| - |TrimStart(s)|;
      && 0 <= i && i + |r| <= |s| && r == s[i..i + |r|]
      && (forall k :: 0 <= k < i ==> IsJsSpace(s[k]))
      && (forall k :: i + |r| <= k < |s| ==> IsJsSpace(s[k]))
  {
    TrimStartDropsLeadingSpace(s);
    TrimEndDropsTrailingSpace(TrimStart(s));
  }

  /** `s.substring(0, n)` for `n >= 0`: the first `n` characters, or all of
      `s` when it is shorter. */
  function Prefix(s: string, n: nat): string
  {
    if n <= |s| then s[..n] else s
  }

  /** The test `getCookie` applies to a trimmed entry. */
  predicate Matches(entry: string, name: string)
  {
    Prefix(entry, |name| + 1) == name + "="
  }

  /** An entry matches exactly when it starts with `name=`. */
  lemma MatchesIffStartsWith(entry: string, name: string)
    ensures Matches(entry, name) <==> |name| + 1 <= |entry| && entry[..|name| + 1] == name + "="
  {
  }

  /** A matching entry is long enough to hold `name=`. */
  lemma MatchedEntryIsLong(entry: string, name: string)
    requires Matches(entry, name)
    ensures |name| + 1 <= |entry|
  {
    assert |name + "="| == |name| + 1;
  }

  /** An entry whose name merely starts with `name` (`csrftokenX=…` for
      `csrftoken`) does not match. */
  lemma LongerNameDoesNotMatch(name: string, extra: string, rest: string)
    requires |extra| > 0 && extra[0] != '='
    ensures !Matches(name + extra + rest, name)
  {
    var entry := name + extra + rest;
    assert entry[|name|] == extra[0];
    if |name| + 1 <= |entry| {
      assert (name + "=")[|name|] == '=';
      assert entry[..|name| + 1][|name|] == extra[0];
    }
  }

  /** Each part trimmed: `cookies[i].trim()` for every `i`. */
  function TrimAll(parts: seq<string>): (entries: seq<string>)
    ensures |entries| == |parts|
  {
    if |parts| == 0 then [] else [Trim(parts[0])] + TrimAll(parts[1..])
  }

  lemma {:induction false} TrimAllAt(parts: seq<string>, k: nat)
    requires k < |parts|
    ensures TrimAll(parts)[k] == Trim(parts[k])
  {
    if k > 0 {
      TrimAllAt(parts[1..], k - 1);
    }
  }

  lemma {:induction false} TrimAllAppend(p: seq<string>, q: seq<string>)
    ensures TrimAll(p + q) == TrimAll(p) + TrimAll(q)
  {
    if |p| > 0 {
      assert (p + q)[1..] == p[1..] + q;
      TrimAllAppend(p[1..], q);
    } else {
      assert p + q == q;
    }
  }

  /** The entries of a cookie string: its `;`-separated parts, trimmed. */
  function Entries(cookie: string): seq<string>
  {
    TrimAll(Split(cookie, ';'))
  }

  /** The index of the first entry that matches `name`. */
  function FirstMatch(entries: seq<string>, name: string): (r: Option<nat>)
    ensures r.Some? ==> r.value < |entries| && Matches(entries[r.value], name)
    ensures r.Some? ==> forall j :: 0 <= j < r.value ==> !Matches(entries[j], name)
    ensures r.None? ==> forall j :: 0 <= j < |entries| ==> !Matches(entries[j], name)
  {
    if |entries| == 0 then None
    else if Matches(entries[0], name) then Some(0)
    else
      match FirstMatch(entries[1..], name)
      case None => None
      case Some(k) => Some(k + 1)
  }

  /** The value `getCookie(name)` returns for the cookie string `cookie`,
      `decode` standing for `decodeURIComponent`: `null` for an empty string,
      otherwise the decoded text after `name=` in the first entry that
      starts with it, or `null` when none does. */
  function CookieValue(cookie: string, name: string, decode: string -> string): (r: Option<string>)
    ensures cookie == "" ==> r == None
    ensures cookie != "" ==>
      var entries := Entries(cookie);
      && (r.None? <==> forall j :: 0 <= j < |entries| ==> !Matches(entries[j], name))
      && (r.Some? ==>
            exists k :: (0 <= k < |entries| && Matches(entries[k], name)
              && (forall j :: 0 <= j < k ==> !Matches(entries[j], name))
              && |name| + 1 <= |entries[k]|
              && r.value == decode(entries[k][|name| + 1..])))
  {
    if cookie == "" then None
    else
      var entries := Entries(cookie);
      match FirstMatch(entries, name)
      case None => None
      case Some(k) =>
        var entry := entries[k];
        MatchedEntryIsLong(entry, name);
        Some(decode(entry[|name| + 1..]))
  }

  lemma {:induction false} FirstMatchOfAppend(p: seq<string>, q: seq<string>, name: string)
    ensures FirstMatch(p + q, name) ==
      match FirstMatch(p, name)
      case Some(k) => Some(k)
      case None => match FirstMatch(q, name) case None => None case Some(k) => Some(|p| + k)
  {
    var pq := p + q;
    assert forall j :: 0 <= j < |p| ==> pq[j] == p[j];
    assert forall j :: 0 <= j < |q| ==> pq[|p| + j] == q[j];
    match FirstMatch(pq, name)
    case None =>
    case Some(k) =>
      if k < |p| {
        assert Matches(p[k], name);
      } else {
        assert Matches(q[k - |p|], name);
      }
  }

  /** The entries of `a;b` are those of `a` followed by those of `b`. */
  lemma EntriesAppend(a: string, b: string)
    ensures Entries(a + ";" + b) == Entries(a) + Entries(b)
  {
    SplitAppend(a, b, ';');
    assert a + ";" + b == a + [';'] + b;
    TrimAllAppend(Split(a, ';'), Split(b, ';'));
  }

  /** Once an entry for `name` has been found, entries after it, including
      later ones with the same name, are ignored. */
  lemma {:induction false} LaterEntriesIgnored(first: string, later: string, name: string, decode: string -> string)
    requires first != ""
    requires CookieValue(first, name, decode).Some?
    ensures CookieValue(first + ";" + later, name, decode) == CookieValue(first, name, decode)
  {
    EntriesAppend(first, later);
    var p, q := Entries(first), Entries(later);
    FirstMatchOfAppend(p, q, name);
    match FirstMatch(p, name)
    case Some(k) =>
      assert (p + q)[k] == p[k];
    case None =>
  }

  /** Entries for other names in front do not change the value found. */
  lemma {:induction false} EarlierOtherEntriesSkipped(first: string, later: string, name: string, decode: string -> string)
    requires first != "" && later != ""
    requires CookieValue(first, name, decode).None?
    ensures CookieValue(first + ";" + later, name, decode) == CookieValue(later, name, decode)
  {
    EntriesAppend(first, later);
    var p, q := Entries(first), Entries(later);
    FirstMatchOfAppend(p, q, name);
    match FirstMatch(q, name)
    case Some(k) =>
      assert (p + q)[|p| + k] == q[k];
    case None =>
  }

  /** `getCookie(name)` over the cookie string `cookie`: the loop of the
      source, which trims each part and stops at the first match. */
  method GetCookie(cookie: string, name: string, decode: string -> string) returns (cookieValue: Option<string>)
    ensures cookieValue == CookieValue(cookie, name, decode)
  {
    cookieValue := None;
    if cookie != "" {
      var cookies := Split(cookie, ';');
      ghost var entries := Entries(cookie);
      var i := 0;
      while i < |cookies|
        invariant 0 <= i <= |cookies|
        invariant cookieValue == None
        invariant forall j :: 0 <= j < i ==> !Matches(entries[j], name)
      {
        var entry := Trim(cookies[i]);
        TrimAllAt(cookies, i);
        if Prefix(entry, |name| + 1) == name + "=" {
          MatchedEntryIsLong(entry, name);
          cookieValue := Some(decode(entry[|name| + 1..]));
          assert FirstMatch(entries, name) == Some(i);
          break;
        }
        i := i + 1;
      }
    }
  }

  // ---------------------------------------------------------------------
  // Element ids of an editable field

  /** `c.toUpperCase()` for a single character; only ASCII letters change. */
  function ToUpper(c: char): char
  {
    if 'a' <= c <= 'z' then (c as int - 32) as char else c
  }

  /** `field.charAt(0).toUpperCase() + field.slice(1)`. */
  function Capitalize(field: string): (r: string)
    ensures |r| == |field|
    ensures |field| > 0 ==> r[0] == ToUpper(field[0]) && r[1..] == field[1..]
  {
    if |field| == 0 then "" else [ToUpper(field[0])] + field[1..]
  }

  function TextId(field: string): string { field + "Text" }
  function InputId(field: string): string { field + "Input" }

  /** The edit icon's id: "edit", the capitalised field name, "Icon". */
  function EditIconId(field: string): (id: string)
    ensures |id| == |field| + 8
    ensures id[..4] == "edit" && id[|id| - 4..] == "Icon" && id[4..|id| - 4] == Capitalize(field)
  {
    "edit" + Capitalize(field) + "Icon"
  }

  /** The save icon's id: "save", the capitalised field name, "Icon". */
  function SaveIconId(field: string): (id: string)
    ensures |id| == |field| + 8
    ensures id[..4] == "save" && id[|id| - 4..] == "Icon" && id[4..|id| - 4] == Capitalize(field)
  {
    "save" + Capitalize(field) + "Icon"
  }

  /** The four elements of one field have four different ids, so the
      toggles write to four different elements. */
  lemma ElementIdsDistinct(field: string)
    ensures TextId(field) != InputId(field)
    ensures TextId(field) != EditIconId(field) && TextId(field) != SaveIconId(field)
    ensures InputId(field) != EditIconId(field) && InputId(field) != SaveIconId(field)
    ensures EditIconId(field) != SaveIconId(field)
  {
    var t, i, e, s := TextId(field), InputId(field), EditIconId(field), SaveIconId(field);
    assert t[|t| - 1] == 't' && i[|i| - 1] == 't' && e[|e| - 1] == 'n' && s[|s| - 1] == 'n';
    assert t[|t| - 2] == 'x' && i[|i| - 2] == 'u';
    assert e[0] == 'e' && s[0] == 's';
  }

  // ---------------------------------------------------------------------
  // The page's elements and the two toggles

  /** The parts of a DOM element the scripts touch. */
  datatype Element = Element(display: string, textContent: string, value: string)

  /** The elements of the page, by id. */
  class Document {
    var elements: map<string, Element>

    constructor (elements: map<string, Element>)
      ensures this.elements == elements
    {
      this.elements := elements;
    }

    /** `toggleEdit(field)`: hide the text and the edit icon, show the input
        and the save icon. */
    method ToggleEdit(field: string)
      requires HasEditor(elements, field)
      modifies this
      ensures elements == EditMode(old(elements), field)
    {
      elements := SetDisplay(elements, TextId(field), "none");
      elements := SetDisplay(elements, InputId(field), "inline");
      elements := SetDisplay(elements, EditIconId(field), "none");
      elements := SetDisplay(elements, SaveIconId(field), "inline");
    }

    /** `toggleBackToText(field, newValue)`: show `newValue` as the text,
        show the text and the edit icon, hide the input and the save icon. */
    method ToggleBackToText(field: string, newValue: string)
      requires HasEditor(elements, field)
      modifies this
      ensures elements == TextMode(old(elements), field, newValue)
    {
      var textId := TextId(field);
      elements := elements[textId := elements[textId].(textContent := newValue)];
      elements := SetDisplay(elements, textId, "inline");
      elements := SetDisplay(elements, InputId(field), "none");
      elements := SetDisplay(elements, EditIconId(field), "inline");
      elements := SetDisplay(elements, SaveIconId(field), "none");
    }
  }

  /** The page has the four elements of `field`; `getElementById` would
      return `null` otherwise and the toggles would throw. */
  predicate HasEditor(elements: map<string, Element>, field: string)
  {
    && TextId(field) in elements && InputId(field) in elements
    && EditIconId(field) in elements && SaveIconId(field) in elements
  }

  /** `document.getElementById(id).style.display = display`. */
  function SetDisplay(elements: map<string, Element>, id: string, display: string): map<string, Element>
    requires id in elements
  {
    elements[id := elements[id].(display := display)]
  }

  /** The elements after `toggleEdit(field)`. */
  function EditMode(elements: map<string, Element>, field: string): map<string, Element>
    requires HasEditor(elements, field)
  {
    var e1 := SetDisplay(elements, TextId(field), "none");
    var e2 := SetDisplay(e1, InputId(field), "inline");
    var e3 := SetDisplay(e2, EditIconId(field), "none");
    SetDisplay(e3, SaveIconId(field), "inline")
  }

  /** The elements after `toggleBackToText(field, newValue)`. */
  function TextMode(elements: map<string, Element>, field: string, newValue: string): map<string, Element>
    requires HasEditor(elements, field)
  {
    var e0 := elements[TextId(field) := elements[TextId(field)].(textContent := newValue)];
    var e1 := SetDisplay(e0, TextId(field), "inline");
    var e2 := SetDisplay(e1, InputId(field), "none");
    var e3 := SetDisplay(e2, EditIconId(field), "inline");
    SetDisplay(e3, SaveIconId(field), "none")
  }

  /** The field is shown as text: text and edit icon visible, input and save
      icon hidden. */
  predicate InTextMode(elements: map<string, Element>, field: string)
    requires HasEditor(elements, field)
  {
    && elements[TextId(field)].display == "inline"
    && elements[InputId(field)].display == "none"
    && elements[EditIconId(field)].display == "inline"
    && elements[SaveIconId(field)].display == "none"
  }

  /** The field is being edited: input and save icon visible, text and edit
      icon hidden. */
  predicate InEditMode(elements: map<string, Element>, field: string)
    requires HasEditor(elements, field)
  {
    && elements[TextId(field)].display == "none"
    && elements[InputId(field)].display == "inline"
    && elements[EditIconId(field)].display == "none"
    && elements[SaveIconId(field)].display == "inline"
  }

  /** `toggleEdit` puts the field in edit mode and changes nothing but the
      display of its four elements. */
  lemma ToggleEditShowsEditor(elements: map<string, Element>, field: string)
    requires HasEditor(elements, field)
    ensures HasEditor(EditMode(elements, field), field)
    ensures InEditMode(EditMode(elements, field), field)
    ensures EditMode(elements, field).Keys == elements.Keys
    ensures forall id :: id in elements ==>
      && EditMode(elements, field)[id].textContent == elements[id].textContent
      && EditMode(elements, field)[id].value == elements[id].value
  {
    ElementIdsDistinct(field);
  }

  /** `toggleEdit` then `toggleBackToText(field, newValue)` shows the field
      as text again with `newValue` as its text; the input keeps what was
      typed, and no other element changes. */
  lemma ToggleRoundTrip(elements: map<string, Element>, field: string, newValue: string)
    requires HasEditor(elements, field)
    ensures HasEditor(EditMode(elements, field), field)
    ensures var after := TextMode(EditMode(elements, field), field, newValue);
      && after.Keys == elements.Keys
      && InTextMode(after, field)
      && after[TextId(field)].textContent == newValue
      && after[InputId(field)].value == elements[InputId(field)].value
      && (forall id :: (id in elements && id != TextId(field) && id != InputId(field)
            && id != EditIconId(field) && id != SaveIconId(field)) ==> after[id] == elements[id])
  {
    ElementIdsDistinct(field);
  }

  /** Starting from the text view, the round trip gives back the same page
      except for the text shown. */
  lemma ToggleRoundTripRestores(elements: map<string, Element>, field: string, newValue: string)
    requires HasEditor(elements, field) && InTextMode(elements, field)
    ensures HasEditor(EditMode(elements, field), field)
    ensures TextMode(EditMode(elements, field), field, newValue)
      == elements[TextId(field) := elements[TextId(field)].(textContent := newValue)]
  {
    ElementIdsDistinct(field);
    var after := TextMode(EditMode(elements, field), field, newValue);
    var expected := elements[TextId(field) := elements[TextId(field)].(textContent := newValue)];
    assert after.Keys == expected.Keys;
    forall id | id in after ensures after[id] == expected[id] {
    }
  }
}

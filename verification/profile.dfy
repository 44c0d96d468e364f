/** The profile page: the avatar initials, the form schema, the payload
    saved to the `profiles` row, and the defaults applied when the row is
    loaded. The backend calls are replaced by their results. */
module Profile {

  import opened Wrappers
  import Text
  import Conditions

  // ---------------------------------------------------------------------
  // Initials

  /** `toUpperCase`, given the per-character upper-case map; one character
      may become several (German sharp s becomes "SS"). */
  function UpperCase(upper: char -> string, s: string): string {
    if |s| == 0 then [] else upper(s[0]) + UpperCase(upper, s[1..])
  }

  /** `parts[0][0] ?? 'U'` followed by `parts[1]?.[0] ?? ''`. */
  function FirstLetters(parts: seq<string>): string
    requires |parts| >= 1
  {
    var first := if |parts[0]| > 0 then parts[0][0] else 'U';
    var second := if |parts| > 1 && |parts[1]| > 0 then [parts[1][0]] else [];
    [first] + second
  }

  /** The reference meaning of the initials before upper-casing: "U" for a
      string without words, else the first letter of the first word followed
      by the first letter of the second word, if there is one. */
  function WordInitials(ws: seq<string>): (r: string)
    requires Text.AllWords(ws)
    ensures |r| == if |ws| >= 2 then 2 else 1
  {
    if |ws| == 0 then "U"
    else
      assert Text.IsWord(ws[0]);
      var second := if |ws| > 1 then assert Text.IsWord(ws[1]); [ws[1][0]] else [];
      [ws[0][0]] + second
  }

  /** `getInitialsFrom(s)`: collapse whitespace runs, trim, split on a
      space, keep the first letters of the first two pieces, upper-case.
      For every string this is the upper-cased reference initials of its
      words. */
  function InitialsFrom(upper: char -> string, s: string): (r: string)
    ensures r == UpperCase(upper, WordInitials(Text.Words(s)))
  {
    var parts := Text.Split(Text.Trim(Text.Collapse(s)));
    Text.SplitOfNormalized(s);
    if |parts| == 0 then "U" else UpperCase(upper, FirstLetters(parts))
  }

  /** An empty or whitespace-only string yields the upper-cased "U". */
  lemma BlankInitials(upper: char -> string, s: string)
    requires Text.IsBlank(s)
    ensures InitialsFrom(upper, s) == upper('U')
  {
    Text.LeadingSpacesUnique(s, |s|);
    Text.WordsOfBlank(s);
    assert UpperCase(upper, "U") == upper('U') + UpperCase(upper, []);
  }

  /** With a non-blank string, the initials are the upper-cased first letter
      of the first word followed by that of the second word, if any. */
  lemma InitialsOfWords(upper: char -> string, s: string)
    requires !Text.IsBlank(s)
    ensures var ws := Text.Words(s);
      && |ws| >= 1
      && InitialsFrom(upper, s)
         == upper(ws[0][0]) + (if |ws| >= 2 then upper(ws[1][0]) else [])
  {
    var i :| 0 <= i < |s| && !Text.IsSpace(s[i]);
    BlankWordsAreBlank(s, i);
    UpperWordInitials(upper, Text.Words(s));
  }

  /** Upper-casing the reference initials of a non-empty word list, letter
      by letter. */
  lemma UpperWordInitials(upper: char -> string, ws: seq<string>)
    requires Text.AllWords(ws) && |ws| >= 1
    ensures UpperCase(upper, WordInitials(ws))
            == upper(ws[0][0]) + (if |ws| >= 2 then upper(ws[1][0]) else [])
  {
    var raw := WordInitials(ws);
    assert Text.IsWord(ws[0]);
    assert raw[0] == ws[0][0];
    assert UpperCase(upper, raw) == upper(raw[0]) + UpperCase(upper, raw[1..]);
    if |ws| >= 2 {
      assert Text.IsWord(ws[1]);
      assert raw[1..] == [ws[1][0]];
      assert UpperCase(upper, raw[1..]) == upper(ws[1][0]) + UpperCase(upper, []);
    } else {
      assert raw[1..] == [];
    }
  }

  /** A string without words is blank. */
  lemma BlankWordsAreBlank(s: string, i: int)
    requires 0 <= i < |s| && !Text.IsSpace(s[i])
    ensures Text.Words(s) != []
  {
    var k := Text.LeadingSpaces(s);
    assert k <= i;
  }

  /** Only the first two words matter: strings whose first two words agree
      have the same initials, whatever follows. */
  lemma InitialsIgnoreLaterWords(upper: char -> string, s: string, t: string)
    requires |Text.Words(s)| >= 2 && |Text.Words(t)| >= 2
    requires Text.Words(s)[..2] == Text.Words(t)[..2]
    ensures InitialsFrom(upper, s) == InitialsFrom(upper, t)
  {
    assert Text.Words(s)[0] == Text.Words(s)[..2][0];
    assert Text.Words(s)[1] == Text.Words(s)[..2][1];
    assert Text.Words(t)[0] == Text.Words(t)[..2][0];
    assert Text.Words(t)[1] == Text.Words(t)[..2][1];
  }

  /** Whitespace added or removed around the string does not change the initials. */
  lemma InitialsIgnoreMargins(upper: char -> string, a: string, s: string, b: string)
    requires Text.IsBlank(a) && Text.IsBlank(b)
    ensures InitialsFrom(upper, a + s + b) == InitialsFrom(upper, s)
  {
    assert a + s + b == a + (s + b);
    Text.WordsBlankPrefix(a, s + b);
    Text.WordsBlankSuffix(s, b);
    SameWordsSameInitials(upper, a + s + b, s);
  }

  /** The initials depend on the words of the string only. */
  lemma SameWordsSameInitials(upper: char -> string, s: string, t: string)
    requires Text.Words(s) == Text.Words(t)
    ensures InitialsFrom(upper, s) == InitialsFrom(upper, t)
  {
  }

  /** Collapsing whitespace runs does not change the initials. */
  lemma InitialsIgnoreCollapse(upper: char -> string, s: string)
    ensures InitialsFrom(upper, Text.Collapse(s)) == InitialsFrom(upper, s)
  {
    Text.CollapseKeepsWords(s);
    SameWordsSameInitials(upper, Text.Collapse(s), s);
  }

  /** The ASCII part of `toUpperCase`, enough for the usual names and e-mails. */
  function AsciiUpper(c: char): string {
    if 'a' <= c <= 'z' then [(c as int - 32) as char] else [c]
  }

  /** With the ASCII map the initials are one or two characters, and "U" for
      a blank string. */
  lemma AsciiInitials(s: string)
    ensures 1 <= |InitialsFrom(AsciiUpper, s)| <= 2
    ensures Text.IsBlank(s) ==> InitialsFrom(AsciiUpper, s) == "U"
  {
    var raw := WordInitials(Text.Words(s));
    AsciiUpperKeepsLength(raw);
    if Text.IsBlank(s) {
      BlankInitials(AsciiUpper, s);
    }
  }

  lemma {:induction false} AsciiUpperKeepsLength(s: string)
    ensures |UpperCase(AsciiUpper, s)| == |s|
  {
    if |s| > 0 {
      AsciiUpperKeepsLength(s[1..]);
    }
  }

  /** The avatar seed: "U" until the user is known, then the initials of the
      e-mail (an absent e-mail counts as empty), then those of the display
      name whenever it is non-empty. */
  function AvatarOnLoad(upper: char -> string, email: Option<string>): (seed: string)
    ensures seed == UpperCase(upper, WordInitials(Text.Words(email.OrElse([]))))
    ensures email.None? ==> seed == upper('U')
  {
    if email.None? then BlankInitials(upper, []); InitialsFrom(upper, [])
    else InitialsFrom(upper, email.value)
  }

  /** The avatar follows the display name as it is typed: the empty name
      leaves the seed alone, any other name replaces it with its initials. */
  function AvatarOnNameChange(upper: char -> string, seed: string, name: string): (seed': string)
    ensures name == [] ==> seed' == seed
    ensures name != [] ==> seed' == InitialsFrom(upper, name)
  {
    if name != [] then InitialsFrom(upper, name) else seed
  }

  /** A display name of spaces only is not empty, so it does replace the
      seed, and with the upper-cased "U"; a name with words shows their
      initials whatever the seed was. */
  lemma AvatarOfTypedName(upper: char -> string, seed: string, name: string)
    ensures name != [] && Text.IsBlank(name) ==> AvatarOnNameChange(upper, seed, name) == upper('U')
    ensures !Text.IsBlank(name) ==>
      AvatarOnNameChange(upper, seed, name) == UpperCase(upper, WordInitials(Text.Words(name)))
  {
    if Text.IsBlank(name) {
      BlankInitials(upper, name);
    }
  }

  // ---------------------------------------------------------------------
  // The form schema

  datatype ProfileForm = ProfileForm(
    displayName: string,
    fullName: string,
    phone: string,
    isSeller: bool)

  /** One message per field, the first the schema reports. */
  datatype FormErrors = FormErrors(
    displayName: Option<string>,
    fullName: Option<string>,
    phone: Option<string>)

  const DisplayNameMin := 2
  const DisplayNameMax := 40
  const FullNameMax := 120
  const PhoneMax := 32

  const TooShortDisplayName := "Mínimo 2 caracteres"
  const TooLongDisplayName := "Máximo 40"
  const TooLongFullName := "Máximo 120"
  const TooLongPhone := "Máximo 32"

  const NoErrors := FormErrors(None, None, None)

  /** The schema: the display name has 2 to 40 characters; the full name and
      the phone are empty or at most 120 and 32 characters. */
  function Validate(f: ProfileForm): (e: FormErrors)
    ensures e.displayName.None? <==> DisplayNameMin <= |f.displayName| <= DisplayNameMax
    ensures e.fullName.None? <==> |f.fullName| <= FullNameMax
    ensures e.phone.None? <==> |f.phone| <= PhoneMax
    ensures |f.displayName| < DisplayNameMin ==> e.displayName == Some(TooShortDisplayName)
    ensures |f.displayName| > DisplayNameMax ==> e.displayName == Some(TooLongDisplayName)
  {
    FormErrors(
      if |f.displayName| < DisplayNameMin then Some(TooShortDisplayName)
      else if |f.displayName| > DisplayNameMax then Some(TooLongDisplayName)
      else None,
      if |f.fullName| > FullNameMax then Some(TooLongFullName) else None,
      if |f.phone| > PhoneMax then Some(TooLongPhone) else None)
  }

  // ---------------------------------------------------------------------
  // Saving and loading the row

  /** The update sent to the `profiles` row. */
  datatype Payload = Payload(
    displayName: string,
    fullName: Option<string>,
    phone: Option<string>,
    isSeller: bool)

  /** `value || null` on a string. */
  function EmptyToNull(s: string): (r: Option<string>)
    ensures r.None? <==> s == []
    ensures r.Some? ==> r.value == s
  {
    if s == [] then None else Some(s)
  }

  /** `onSubmit`'s payload: the empty full name and phone become null, the
      display name and the seller flag pass through. */
  function ToPayload(f: ProfileForm): (p: Payload)
    ensures p.displayName == f.displayName && p.isSeller == f.isSeller
    ensures p.fullName.None? <==> f.fullName == []
    ensures p.phone.None? <==> f.phone == []
    ensures p.fullName.Some? ==> p.fullName.value == f.fullName
    ensures p.phone.Some? ==> p.phone.value == f.phone
  {
    Payload(f.displayName, EmptyToNull(f.fullName), EmptyToNull(f.phone), f.isSeller)
  }

  /** The columns the page selects; every one is nullable. The location is
      kept as the text the backend returns for it. */
  datatype ProfileRow = ProfileRow(
    displayName: Option<string>,
    fullName: Option<string>,
    phone: Option<string>,
    isSeller: Option<bool>,
    interests: Option<seq<string>>,
    preferredConditions: Option<seq<string>>,
    radiusKm: Option<int>,
    location: Option<string>,
    onboarded: Option<bool>)

  const NullRow := ProfileRow(None, None, None, None, None, None, None, None, None)

  /** The summary the right-hand panel shows. */
  datatype Prefs = Prefs(
    interests: seq<string>,
    conditions: seq<string>,
    radius: Option<int>,
    hasLocation: bool,
    onboarded: bool)

  const EmptyForm := ProfileForm([], [], [], false)
  const EmptyPrefs := Prefs([], [], None, false, false)

  /** `!!flag` on a nullable boolean. */
  function IsTrue(b: Option<bool>): bool {
    b == Some(true)
  }

  /** `reset(...)` in the load effect: a null text becomes the empty string,
      a null seller flag becomes false. */
  function FormFromRow(row: ProfileRow): (f: ProfileForm)
    ensures row.displayName.None? ==> f.displayName == []
    ensures row.displayName.Some? ==> f.displayName == row.displayName.value
    ensures row.fullName.None? ==> f.fullName == []
    ensures row.fullName.Some? ==> f.fullName == row.fullName.value
    ensures row.phone.None? ==> f.phone == []
    ensures row.phone.Some? ==> f.phone == row.phone.value
    ensures f.isSeller <==> row.isSeller == Some(true)
  {
    ProfileForm(
      row.displayName.OrElse([]),
      row.fullName.OrElse([]),
      row.phone.OrElse([]),
      IsTrue(row.isSeller))
  }

  /** `setPrefs(...)` in the load effect: null lists become empty, a null
      radius stays null, the location counts when it is truthy. */
  function PrefsFromRow(row: ProfileRow): (p: Prefs)
    ensures row.interests.None? ==> p.interests == []
    ensures row.interests.Some? ==> p.interests == row.interests.value
    ensures row.preferredConditions.None? ==> p.conditions == []
    ensures row.preferredConditions.Some? ==> p.conditions == row.preferredConditions.value
    ensures p.radius == row.radiusKm
    ensures p.hasLocation <==> Text.Truthy(row.location)
    ensures p.onboarded <==> row.onboarded == Some(true)
  {
    Prefs(
      row.interests.OrElse([]),
      row.preferredConditions.OrElse([]),
      row.radiusKm,
      Text.Truthy(row.location),
      IsTrue(row.onboarded))
  }

  /** The load effect: on a query error or a missing row the page keeps its
      initial form and summary; otherwise it fills them from the row. */
  function Load(result: Option<ProfileRow>): (r: (ProfileForm, Prefs))
    ensures result.None? ==> r == (EmptyForm, EmptyPrefs)
    ensures result.Some? ==> r == (FormFromRow(result.value), PrefsFromRow(result.value))
  {
    match result
    case None => (EmptyForm, EmptyPrefs)
    case Some(row) => (FormFromRow(row), PrefsFromRow(row))
  }

  /** A row whose columns are all null loads exactly like a failed query. */
  lemma NullRowLoadsDefaults()
    ensures Load(Some(NullRow)) == Load(None)
  {
  }

  /** The row after the update: the four edited columns take the payload's values. */
  function ApplyPayload(row: ProfileRow, p: Payload): (row': ProfileRow)
    ensures row'.interests == row.interests && row'.preferredConditions == row.preferredConditions
    ensures row'.radiusKm == row.radiusKm && row'.location == row.location
    ensures row'.onboarded == row.onboarded
  {
    row.(displayName := Some(p.displayName), fullName := p.fullName,
         phone := p.phone, isSeller := Some(p.isSeller))
  }

  /** Saving a form and loading the row back gives the same form: turning
      empty texts into null is undone by the load defaults. */
  lemma SaveThenLoad(row: ProfileRow, f: ProfileForm)
    ensures FormFromRow(ApplyPayload(row, ToPayload(f))) == f
    ensures Load(Some(ApplyPayload(row, ToPayload(f)))) == (f, Load(Some(row)).1)
  {
  }

  /** The condition chips of the summary panel: one label per stored code, in order. */
  function ConditionChips(conditions: seq<string>): (chips: seq<string>)
    ensures |chips| == |conditions|
    ensures forall i :: 0 <= i < |chips| ==> chips[i] == Conditions.Label(conditions[i])
  {
    seq(|conditions|, i requires 0 <= i < |conditions| => Conditions.Label(conditions[i]))
  }
}

# MatchIT page rules in Dafny

MatchIT is a marketplace for second-hand hardware. It is built as a Next.js
front end over a hosted backend. Each page is mostly backend calls and
markup. Inside the pages sit small decision rules, and this project models
those rules as pure functions and proves what they promise:

- **Profile** (`profile.dfy`): how avatar initials are derived from a name or an
  e-mail; the form schema and its bounds; how the saved payload turns empty
  texts into null; how a loaded row falls back to defaults; the condition
  chips.
- **Sell** (`sell.dfy`): the new-listing form, `validateForm` with its
  per-field messages, and the error bookkeeping of `handleChange` and
  `handleImage`. Also the submit guard, the shape of the inserted row, and
  what the page does once the insert settles.
- **Onboarding** (`onboarding.dfy`): the chip toggles for interests and
  conditions, the default and loaded preferences, the three-step wizard,
  the radius slider, and the effects of `save`.
- **Explore** (`explore.dfy`): the drag threshold, the photo arrows and the
  placeholder photo, removal from the feed after a like or a pass, the
  keyboard map, the top card, and the condition tag.
- **Auth** (`auth.dfy`): the login/sign-up mode and its query parameter, the
  mode-dependent texts, the form rules, the error toast, and where each
  backend answer sends the user.

Shared pieces:

- `text.dfy` models the JavaScript string operations the pages use:
  `trim`, `replace(/\s+/g, ' ')`, `split(' ')`, `includes` and
  truthiness. It relates them to an independent definition of the words of
  a string. `Join` (words glued with single spaces) and `EndsWith` are
  proof helpers: no page calls `join` or `endsWith`.
- `seqs.dfy` models `Array.prototype.filter` and duplicate-freedom.
- `conditions.dfy` holds the condition codes and their labels.
- `effects.dfy` holds the toasts and navigations that handlers produce.
- `wrappers.dfy` holds `Option`, with `OrElse` playing the role of `??`.

Backend answers become inputs: a query error, the `onboarded` flag, the
RPC's success. A handler's toast and navigation become its result.

Functions the model cannot see are parameters:

- `toUpperCase` is a per-character map `char -> string`, because one
  character may become several.
- `toLowerCase` is a map `string -> string`.
- `Number(...)` is a map `string -> Option<real>`, with `None` for NaN.
- zod's e-mail check is a predicate `string -> bool`.

Lemmas show what the code needs from the two case maps, and ASCII
instances of those two are proved to meet those needs. `Number(...)` and
the e-mail check have no instance.

## Model

| member | source | states |
|---|---|---|
| Text.Trim | src/app/sell/page.tsx:92-96 | `trim` gives the empty string exactly for whitespace-only input, and otherwise starts and ends with a non-space |
| Text.Collapse | src/app/profile/page.tsx:428 | the collapsed string is never longer than the input; CollapseShape pins it down |
| Text.CollapseShape | src/app/profile/page.tsx:428 | `replace(/\s+/g, ' ')` leaves at most one space before the words, the words joined by single spaces, and at most one space after them |
| Text.Split | src/app/profile/page.tsx:428 | `split(' ')` always yields at least one piece, and no piece contains a space |
| Text.JoinSplit | src/app/profile/page.tsx:428 | joining the pieces of `split(' ')` with spaces gives back the string |
| Text.SplitJoin | src/app/profile/page.tsx:428 | splitting words joined by single spaces gives back the words |
| Text.NormalizeIsJoinedWords | src/app/profile/page.tsx:428 | collapsing whitespace runs and then trimming yields the string's words joined by single spaces |
| Text.CollapseKeepsWords | src/app/profile/page.tsx:428 | collapsing whitespace runs keeps the words of the string |
| Text.SplitOfNormalized | src/app/profile/page.tsx:428 | collapsing, trimming and splitting on a space gives exactly the string's words, or the single empty piece when it has none |
| Text.WordsOfJoin | src/app/profile/page.tsx:428 | the words of words joined by spaces are those words |
| Text.WordsBlankPrefix | src/app/profile/page.tsx:428 | leading whitespace adds no words |
| Text.WordsBlankSuffix | src/app/profile/page.tsx:428 | trailing whitespace adds no words |
| Text.Contains | src/app/auth/page.tsx:107 | `includes` holds exactly when the text occurs at some position |
| Seqs.Filter | src/app/explorar/page.tsx:52 | `filter` keeps exactly the elements that pass, and never adds one |
| Seqs.FilterAppend | src/app/explorar/page.tsx:52 | filtering works piecewise over a concatenation, so survivors keep their order |
| Seqs.FilterNoDup | src/app/onboarding/OnboardingClient.tsx:155 | filtering a list without repeats leaves it without repeats |
| Conditions.Label | src/app/explorar/page.tsx:244-248 | `semi` reads "seminovo", `pecas` reads "peças", and everything else reads "novo" |
| Conditions.LabelSeparatesCodes | src/app/explorar/page.tsx:244-248 | the three codes get three different labels, and an unknown code reads like `novo` |
| Profile.InitialsFrom | src/app/profile/page.tsx:427-433 | `getInitialsFrom` equals the upper-cased reference initials of the string's words, for every string |
| Profile.WordInitials | src/app/profile/page.tsx:429-432 | the reference initials have two letters for two or more words, and one otherwise |
| Profile.BlankInitials | src/app/profile/page.tsx:427-430 | an empty or whitespace-only string gives the upper-cased "U" |
| Profile.InitialsOfWords | src/app/profile/page.tsx:428-432 | a non-blank string gives the upper-cased first letters of its first word and of its second word, if any |
| Profile.InitialsIgnoreLaterWords | src/app/profile/page.tsx:430-432 | strings whose first two words agree have the same initials |
| Profile.InitialsIgnoreMargins | src/app/profile/page.tsx:428 | whitespace added around a string does not change its initials |
| Profile.InitialsIgnoreCollapse | src/app/profile/page.tsx:428 | collapsing whitespace runs does not change the initials |
| Profile.SameWordsSameInitials | src/app/profile/page.tsx:428-432 | the initials depend on the words of the string only |
| Profile.AsciiInitials | src/app/profile/page.tsx:427-433 | with ASCII upper-casing the initials have one or two characters, and a blank string gives "U" |
| Profile.AvatarOnLoad | src/app/profile/page.tsx:89-90 | on load the avatar shows the upper-cased reference initials of the e-mail's words, and the upper-cased "U" without an e-mail |
| Profile.AvatarOnNameChange | src/app/profile/page.tsx:123-125 | an empty display name keeps the avatar, and any other name replaces it with its initials |
| Profile.AvatarOfTypedName | src/app/profile/page.tsx:123-125 | a display name of spaces only shows the upper-cased "U", and a name with words shows the upper-cased initials of its words |
| Profile.Validate | src/app/profile/page.tsx:24-29 | the display name passes exactly at 2 to 40 characters, with the short and long messages. The full name passes at up to 120 characters and the phone at up to 32 |
| Profile.EmptyToNull | src/app/profile/page.tsx:134-135 | `value \|\| null` gives null exactly for the empty string and otherwise the string itself |
| Profile.ToPayload | src/app/profile/page.tsx:132-137 | the empty full name and phone become null; the display name and the seller flag pass through |
| Profile.FormFromRow | src/app/profile/page.tsx:104-109 | null texts load as empty strings and a null seller flag loads as false |
| Profile.PrefsFromRow | src/app/profile/page.tsx:111-117 | null lists load as empty and the radius stays as stored. `hasLocation` holds exactly for a truthy location, and `onboarded` exactly for a true flag |
| Profile.Load | src/app/profile/page.tsx:98-117 | a failed query or a missing row leaves the initial empty form and summary; a row fills the form and the summary from its columns, with their null defaults |
| Profile.NullRowLoadsDefaults | src/app/profile/page.tsx:98-117 | an all-null row loads exactly like a failed query: the initial form and summary |
| Profile.ApplyPayload | src/app/profile/page.tsx:132-140 | the update leaves the preference, location and onboarding columns alone |
| Profile.SaveThenLoad | src/app/profile/page.tsx:104-140 | saving a form and loading the row back gives the same form, and the same summary as before the save |
| Profile.ConditionChips | src/app/profile/page.tsx:324 | one chip per stored condition, in order, each showing that code's label |
| Sell.PriceMessage | src/app/sell/page.tsx:96-101 | a blank price is required. A NaN or non-positive price is invalid. A price has no error exactly when it is non-blank and parses to a positive number |
| Sell.ValidationErrors | src/app/sell/page.tsx:89-103 | an error is present exactly for each blank text field, a failing price and a missing image, and every present error carries a message |
| Sell.ValidateForm | src/app/sell/page.tsx:104-105 | the form passes exactly when the stored error object has no keys |
| Sell.ValidateAcceptsComplete | src/app/sell/page.tsx:89-105 | `validateForm` accepts exactly the listings with all five text fields, a positive price and an image |
| Sell.FieldErrorIsLocal | src/app/sell/page.tsx:92-101 | the error of a text field depends on that field's value alone |
| Sell.HandleChange | src/app/sell/page.tsx:69-74 | the edited field takes the new value and loses its error; every other field and error is unchanged |
| Sell.HandleImage | src/app/sell/page.tsx:76-87 | no file changes nothing. A loaded file becomes the image and clears the image error, leaving the other errors unchanged |
| Sell.LocationFromProfile | src/app/sell/page.tsx:63-65 | the page takes the profile's location only when it is truthy |
| Sell.LocationColumn | src/app/sell/page.tsx:135 | the row's location is null exactly when the page's location is falsy |
| Sell.Submit | src/app/sell/page.tsx:108-138 | an invalid form is blocked with the fill-everything toast and no insert. A valid form inserts its fields with `[image]`, the page's location, `active` true and status `active` |
| Sell.InsertWithoutProfileLocation | src/app/sell/page.tsx:63-65 | a listing has no location exactly when the seller's profile had no truthy location |
| Sell.Settle | src/app/sell/page.tsx:141-147 | a successful insert goes to the profile. A failure stays on the page and shows the error's message, or the default text when that is missing or empty |
| Onboarding.Toggle | src/app/onboarding/OnboardingClient.tsx:152-157 | an inactive key is appended at the end, and an active key is removed entirely; no other key changes membership |
| Onboarding.ToggleRemovesInPlace | src/app/onboarding/OnboardingClient.tsx:250-255 | clicking an active key removes every copy of it: the entries before and after the clicked one keep their order, minus the other copies |
| Onboarding.ToggleRemovesSingle | src/app/onboarding/OnboardingClient.tsx:250-255 | when the key occurs once, the rest of the list stays exactly as it was |
| Onboarding.ToggleTwiceRestores | src/app/onboarding/OnboardingClient.tsx:250-255 | clicking the same inactive chip twice restores the list |
| Onboarding.ToggleTwiceKeepsSelection | src/app/onboarding/OnboardingClient.tsx:152-157 | clicking any chip twice restores the selected set |
| Onboarding.ToggleKeepsNoDup | src/app/onboarding/OnboardingClient.tsx:250-255 | a list without repeats stays without repeats |
| Onboarding.ToggleStaysWithin | src/app/onboarding/OnboardingClient.tsx:243-255 | if every selected key is an offered one, clicking an offered chip leaves only offered keys selected |
| Onboarding.ChipsAddOnlyOffered | src/app/onboarding/OnboardingClient.tsx:21 | conditions stay within `novo`, `semi`, `pecas`, and interests stay within the seven categories |
| Onboarding.LoadPreferences | src/app/onboarding/OnboardingClient.tsx:51-55 | no row keeps the current preferences. A row replaces each one, and a null column gives `[]`, `['semi']` or 10 |
| Onboarding.NullPreferencesGiveDefaults | src/app/onboarding/OnboardingClient.tsx:31-33 | a missing row and an all-null row both leave the defaults `[]`, `['semi']`, 10 |
| Onboarding.LoadSaved | src/app/onboarding/OnboardingClient.tsx:51-55 | loading stored preferences gives them back |
| Onboarding.RadiusFromSlider | src/app/onboarding/OnboardingClient.tsx:193-197 | the radius is an integer in 1..50, equal to the position whenever that is in range |
| Onboarding.SliderMonotoneAndStable | src/app/onboarding/OnboardingClient.tsx:193-197 | the radius grows with the slider position, and reading a radius back changes nothing |
| Onboarding.Buttons | src/app/onboarding/OnboardingClient.tsx:173-283 | "Continuar" shows below step 3, "Voltar" above step 1, and "Concluir" on step 3 only |
| Onboarding.Press | src/app/onboarding/OnboardingClient.tsx:175 | every click moves one step, forward for "Continuar" and back for "Voltar". `save` runs only from step 3 |
| Onboarding.Run | src/app/onboarding/OnboardingClient.tsx:175-278 | no clicks stay on the current step, and a walk that saves ends with a click of "Concluir" |
| Onboarding.SaveNeedsEveryStep | src/app/onboarding/OnboardingClient.tsx:175-278 | `save` runs on a click of "Concluir", after at least one click of "Continuar" per step still to go, so two from the first step |
| Onboarding.ShortestWalkSaves | src/app/onboarding/OnboardingClient.tsx:278 | three forward clicks from step 1 do reach `save` |
| Onboarding.SaveOutcome | src/app/onboarding/OnboardingClient.tsx:68-100 | with no session the user goes to `/auth`. A failed RPC writes the fallback update with `onboarded` true. Any answer from the RPC leads to the profile with the saved toast. A thrown error shows its message, or the default text when that is missing |
| Explore.EndDrag | src/app/explorar/page.tsx:142-146 | beyond 120 to the right is a like, beyond 120 to the left is a pass, and anything within the threshold does nothing |
| Explore.EndDragMirrors | src/app/explorar/page.tsx:142-146 | a mirrored drag gives the opposite verdict |
| Explore.Step | src/app/explorar/page.tsx:182-185 | an arrow moves one photo and stops at the first and the last |
| Explore.Browse | src/app/explorar/page.tsx:179-185 | any sequence of arrow clicks keeps the index within the photo list |
| Explore.StepBackUndoesForward | src/app/explorar/page.tsx:182-185 | a step back undoes a step forward that did not hit the end |
| Explore.DisplayedImage | src/app/explorar/page.tsx:132 | the card shows the photo at the index, or the placeholder when the list is missing or the index is outside it |
| Explore.BrowsedImageIsOwn | src/app/explorar/page.tsx:132 | a card with several photos always shows one of its own |
| Explore.RemoveById | src/app/explorar/page.tsx:52 | no item with the id remains, every other item remains, and nothing is added |
| Explore.RemoveKeepsOrder | src/app/explorar/page.tsx:63 | removal works piecewise, so the remaining items keep their order |
| Explore.RemoveAbsentId | src/app/explorar/page.tsx:52 | removing an id not in the feed changes nothing |
| Explore.Current | src/app/explorar/page.tsx:33 | the top card is the item at the index when the index is in range, and none otherwise |
| Explore.VerdictUncoversNext | src/app/explorar/page.tsx:33 | with distinct ids, a verdict on the top card removes exactly it and uncovers the next |
| Explore.LikeOutcome | src/app/explorar/page.tsx:46-57 | the item leaves the feed only when the chat opened, and the page then goes to that chat. A failure keeps the feed and shows the message or the default text |
| Explore.PassOutcome | src/app/explorar/page.tsx:59-67 | the item leaves the feed whenever the call returns, even with an error; only a thrown error keeps it |
| Explore.OnlySuccessfulLikeRemoves | src/app/explorar/page.tsx:48-52 | a failed like keeps the item, and an opened chat or a returned pass removes it |
| Explore.KeyVerdicts | src/app/explorar/page.tsx:73-78 | a key gives a like exactly when it is `ArrowRight` or lower-cases to `l`, and a pass exactly when it is `ArrowLeft` or lower-cases to `h` |
| Explore.OnKey | src/app/explorar/page.tsx:69-78 | a key acts only when there is a top card |
| Explore.KeyMap | src/app/explorar/page.tsx:73-78 | `ArrowRight`, `l`, `L` give one like; `ArrowLeft`, `h`, `H` give one pass; any other key gives nothing |
| Explore.AsciiLowerLowersLetters | src/app/explorar/page.tsx:76-77 | ASCII lower-casing turns exactly `l` and `L` into `l`, and exactly `h` and `H` into `h` |
| Explore.ConditionTag | src/app/explorar/page.tsx:244-248 | a card's tag is its condition's label, one of the three labels |
| Auth.ModeName | src/app/auth/page.tsx:51 | the query spellings "login" and "signup" name exactly the two modes |
| Auth.ModeFromQuery | src/app/auth/page.tsx:49-52 | the mode switches only for exactly `signup` or `login`, and otherwise stays |
| Auth.ModeQueryRoundTrip | src/app/auth/page.tsx:49-52 | a mode written into the query is read back as itself |
| Auth.ToggleMode | src/app/auth/page.tsx:221 | the link always changes the mode |
| Auth.ToggleModeTwice | src/app/auth/page.tsx:221 | toggling twice is the identity |
| Auth.SubmitLabel | src/app/auth/page.tsx:213 | the idle button shows the call to action, and a busy one shows something else |
| Auth.Title | src/app/auth/page.tsx:116-119 | the heading repeats the button's call to action exactly in sign-up mode |
| Auth.Cta | src/app/auth/page.tsx:120-123 | the idle button always has a text |
| Auth.SwitchText | src/app/auth/page.tsx:124-127 | the switch link ends with the call to action of the mode it switches to, and is never the current call to action |
| Auth.TextsFollowMode | src/app/auth/page.tsx:116-127 | heading, call to action, switch link and busy text each tell the modes apart |
| Auth.Validate | src/app/auth/page.tsx:17-20 | the e-mail error is absent exactly for an address the e-mail predicate accepts. The password error is absent exactly for six or more characters |
| Auth.ErrorText | src/app/auth/page.tsx:105-110 | a message mentioning the bad credentials becomes "Credenciais inválidas.". Any other non-empty message is shown as it is, and a missing or empty one gives the default text |
| Auth.ErrorTextShape | src/app/auth/page.tsx:105-110 | the error toast is never blank, and it is the translation, the default, or the backend's own message |
| Auth.SignupOutcome | src/app/auth/page.tsx:57-74 | a completed sign-up always goes to `/onboarding`, retrying the sign-in only without a session. A rejected one stays with the error toast |
| Auth.LoginOutcome | src/app/auth/page.tsx:75-104 | a rejected login stays with the error toast, and a login without a user goes back to `/auth` |
| Auth.LoginDestination | src/app/auth/page.tsx:92-103 | after login the user reaches `/onboarding` exactly when the profile was read and is not onboarded. A failed profile query goes to `/`, as does an onboarded profile |
| Auth.SessionRedirect | src/app/auth/page.tsx:35-47 | a signed-in visitor goes to `/` when onboarded and to `/onboarding` otherwise; without a user nothing happens |
| Auth.SessionAndLoginAgree | src/app/auth/page.tsx:44-45 | when the profile was read, the visit-time check and the login path pick the same page |
| Auth.Submit | src/app/auth/page.tsx:57-75 | the mode alone decides whether the sign-up or the login flow runs |

## Left out

- Backend calls, the router, toasts, confetti and the `sonner`, `framer-motion` and `lucide-react` markup are not performed. Their answers are inputs and their effects are outputs.
- Strings are sequences of Unicode scalar values. JavaScript measures `length` in UTF-16 code units, so the schema bounds differ for characters outside the Basic Multilingual Plane.
- Profile.InitialsFrom: takes the first Unicode character of a word, while `parts[0][0]` takes the first UTF-16 code unit. For a name starting outside the Basic Multilingual Plane, such as "😀 Ana", JavaScript takes a lone surrogate and the model takes the whole character.
- `toUpperCase`, `toLowerCase`, `Number(...)` and zod's e-mail format are parameters, not implementations. `toUpperCase` and `toLowerCase` have ASCII instances; `Number(...)` and the e-mail check have none.
- Explore.EndDrag: the drag offset is a real number. JavaScript's NaN and infinities are not modelled.
- The sell page's `price` and `price_cents` columns are left out, because they come from `parseFloat` and `Math.round` on floating point. Validation uses `Number(price)` while the payload uses `parseFloat(price.replace(',', '.'))`. For an input such as "0x10" the two disagree, but the disagreement lives in floating point and is not modelled.
- The sell page's image preview, `loading` and `touchedSubmit` flags, and the CSS class for invalid inputs are left out.
- Sell.Submit: the seller id and location are taken as given. The user lookup and its redirect to `/auth` are not modelled.
- The `location` column of a profile has an unknown type in the source. It is modelled as a nullable text, and its truthiness is that of a string.
- The geolocation and jitter of the onboarding page (`getGeoApprox`, `jitterLatLng`) are left out. So are the latitude and longitude sent to the RPC and the edit-mode heading.
- Onboarding.RadiusFromSlider: the browser's snapping of a range input to an integer in `min..max` is modelled as clamping an integer position.
- The explore page's feed loading (`get_feed`, `data ?? []`), the help toggle and the card animations are left out.
- Explore.Current: the page never changes `index` from 0, so the lemmas about verdicts use index 0.
- The profile page's session-expiry path in `onSubmit` and its toasts are left out.
- Chat, geolocation helpers, the geo-IP route and price formatting are not part of this model.

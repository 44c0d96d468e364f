/** The onboarding wizard: the interest and condition chips, the stored
    preferences and their defaults, the three-step navigation, the radius
    slider, and what saving does with the backend's answers. */
module Onboarding {

  import opened Wrappers
  import opened Effects
  import Seqs
  import Conditions

  /** The interest chips, in the order they are offered. */
  const Categories: seq<string> := ["Notebook", "Monitor", "GPU", "RAM", "Periféricos", "Celular", "Peças"]

  /** The filter test that keeps every entry other than `key`. */
  function Other(key: string): string -> bool {
    k => k != key
  }

  /** A chip's click: an active key is filtered out of the list, an inactive
      one is appended at the end. */
  function Toggle(list: seq<string>, key: string): (r: seq<string>)
    ensures key !in list ==> r == list + [key]
    ensures key in list ==> key !in r
    ensures forall x :: x != key ==> (x in r <==> x in list)
    ensures |r| <= |list| + 1
  {
    if key in list then Seqs.Filter(list, Other(key)) else list + [key]
  }

  /** Clicking an active chip removes every occurrence of it where it
      stands: the entries before and after the clicked one keep their order,
      and only the other copies of the key drop out of them. */
  lemma ToggleRemovesInPlace(before: seq<string>, key: string, after: seq<string>)
    ensures Toggle(before + [key] + after, key)
         == Seqs.Filter(before, Other(key)) + Seqs.Filter(after, Other(key))
  {
    var keep := Other(key);
    var list := before + [key] + after;
    assert list[|before|] == key;
    Seqs.FilterAppend(before + [key], after, keep);
    Seqs.FilterAppend(before, [key], keep);
    assert Seqs.Filter([key], keep) == [] by {
      assert [key][1..] == [];
    }
    calc {
      Toggle(list, key);
      Seqs.Filter(list, keep);
      Seqs.Filter(before + [key], keep) + Seqs.Filter(after, keep);
      Seqs.Filter(before, keep) + Seqs.Filter([key], keep) + Seqs.Filter(after, keep);
      { assert Seqs.Filter(before, keep) + [] == Seqs.Filter(before, keep); }
      Seqs.Filter(before, keep) + Seqs.Filter(after, keep);
    }
  }

  /** When the clicked key occurs only once, the rest of the list is left
      exactly as it was. */
  lemma ToggleRemovesSingle(before: seq<string>, key: string, after: seq<string>)
    requires key !in before && key !in after
    ensures Toggle(before + [key] + after, key) == before + after
  {
    ToggleRemovesInPlace(before, key, after);
    Seqs.FilterKeepsAll(before, Other(key));
    Seqs.FilterKeepsAll(after, Other(key));
  }

  /** Clicking the same inactive chip twice restores the list. */
  lemma ToggleTwiceRestores(list: seq<string>, key: string)
    requires key !in list
    ensures Toggle(Toggle(list, key), key) == list
  {
    ToggleRemovesSingle(list, key, []);
    assert list + [key] + [] == list + [key];
    assert list + [] == list;
  }

  /** Clicking an active chip twice moves it to the end without changing
      which keys are selected. */
  lemma ToggleTwiceKeepsSelection(list: seq<string>, key: string, x: string)
    ensures x in Toggle(Toggle(list, key), key) <==> x in list
  {
  }

  /** A list without repeats stays without repeats, whatever is clicked. */
  lemma ToggleKeepsNoDup(list: seq<string>, key: string)
    requires Seqs.NoDup(list)
    ensures Seqs.NoDup(Toggle(list, key))
  {
    if key in list {
      Seqs.FilterNoDup(list, Other(key));
    } else {
      Seqs.AppendNoDup(list, key);
    }
  }

  /** Entries drawn from `offered` stay drawn from `offered` when a chip of
      `offered` is clicked. */
  lemma ToggleStaysWithin(list: seq<string>, key: string, offered: seq<string>)
    requires forall i :: 0 <= i < |list| ==> list[i] in offered
    requires key in offered
    ensures forall i :: 0 <= i < |Toggle(list, key)| ==> Toggle(list, key)[i] in offered
  {
  }

  /** The condition chips only ever add known condition codes, and the
      interest chips only ever add the offered categories. */
  lemma ChipsAddOnlyOffered(conditions: seq<string>, interests: seq<string>, c: string, k: string)
    requires forall i :: 0 <= i < |conditions| ==> conditions[i] in Conditions.Codes
    requires forall i :: 0 <= i < |interests| ==> interests[i] in Categories
    requires c in Conditions.Codes && k in Categories
    ensures forall i :: 0 <= i < |Toggle(conditions, c)| ==> Toggle(conditions, c)[i] in Conditions.Codes
    ensures forall i :: 0 <= i < |Toggle(interests, k)| ==> Toggle(interests, k)[i] in Categories
  {
    ToggleStaysWithin(conditions, c, Conditions.Codes);
    ToggleStaysWithin(interests, k, Categories);
  }

  /** The preferences the wizard edits. */
  datatype Preferences = Preferences(interests: seq<string>, conditions: seq<string>, radius: int)

  const DefaultInterests: seq<string> := []
  const DefaultConditions: seq<string> := ["semi"]
  const DefaultRadius := 10

  /** The state before anything is loaded. */
  const Defaults := Preferences(DefaultInterests, DefaultConditions, DefaultRadius)

  /** The profile columns the wizard reads, each possibly null. */
  datatype StoredPreferences = StoredPreferences(
    interests: Option<seq<string>>,
    conditions: Option<seq<string>>,
    radius: Option<int>)

  /** The load effect: without a profile row nothing changes; with one, each
      column replaces the current value, a null column giving its default. */
  function LoadPreferences(current: Preferences, row: Option<StoredPreferences>): (p: Preferences)
    ensures row.None? ==> p == current
    ensures row.Some? && row.value.interests.Some? ==> p.interests == row.value.interests.value
    ensures row.Some? && row.value.interests.None? ==> p.interests == DefaultInterests
    ensures row.Some? && row.value.conditions.Some? ==> p.conditions == row.value.conditions.value
    ensures row.Some? && row.value.conditions.None? ==> p.conditions == DefaultConditions
    ensures row.Some? && row.value.radius.Some? ==> p.radius == row.value.radius.value
    ensures row.Some? && row.value.radius.None? ==> p.radius == DefaultRadius
  {
    match row
    case None => current
    case Some(r) =>
      Preferences(r.interests.OrElse(DefaultInterests),
                  r.conditions.OrElse(DefaultConditions),
                  r.radius.OrElse(DefaultRadius))
  }

  /** A missing profile and an all-null profile both leave the wizard on the
      defaults. */
  lemma NullPreferencesGiveDefaults(current: Preferences)
    ensures LoadPreferences(Defaults, None) == Defaults
    ensures LoadPreferences(current, Some(StoredPreferences(None, None, None))) == Defaults
  {
  }

  /** Loading what was saved gives it back. */
  lemma LoadSaved(current: Preferences, saved: Preferences)
    ensures LoadPreferences(current, Some(StoredPreferences(Some(saved.interests), Some(saved.conditions), Some(saved.radius)))) == saved
  {
  }

  const RadiusMin := 1
  const RadiusMax := 50

  /** The range input's value as `parseInt` reads it: the browser keeps a
      range input's value an integer between its `min` and `max`, so a drag
      to `position` lands on the nearest allowed value. */
  function RadiusFromSlider(position: int): (radius: int)
    ensures RadiusMin <= radius <= RadiusMax
    ensures RadiusMin <= position <= RadiusMax ==> radius == position
    ensures position < RadiusMin ==> radius == RadiusMin
    ensures position > RadiusMax ==> radius == RadiusMax
  {
    if position < RadiusMin then RadiusMin
    else if position > RadiusMax then RadiusMax
    else position
  }

  /** Moving the slider further never shortens the radius, and reading a
      radius back through the slider changes nothing. */
  lemma SliderMonotoneAndStable(p: int, q: int)
    ensures p <= q ==> RadiusFromSlider(p) <= RadiusFromSlider(q)
    ensures RadiusFromSlider(RadiusFromSlider(p)) == RadiusFromSlider(p)
  {
  }

  /** The wizard's steps. */
  type Step = s: int | 1 <= s <= 3 witness 1

  /** The buttons under a step: "Continuar", "Voltar" and "Concluir". */
  datatype Button = Continue | Back | Finish

  /** The buttons each step shows. */
  function Buttons(step: Step): (shown: set<Button>)
    ensures Continue in shown <==> step < 3
    ensures Back in shown <==> step > 1
    ensures Finish in shown <==> step == 3
  {
    if step == 1 then {Continue}
    else if step == 2 then {Back, Continue}
    else {Back, Finish}
  }

  /** The effect of a click: move to another step, or run `save`. */
  datatype Click = MoveTo(step: Step) | Save

  /** A click on a shown button. */
  function Press(step: Step, b: Button): (c: Click)
    requires b in Buttons(step)
    ensures c.MoveTo? ==> c.step == step + 1 || c.step == step - 1
    ensures c.MoveTo? && b == Continue ==> c.step == step + 1
    ensures c.MoveTo? && b == Back ==> c.step == step - 1
    ensures c.Save? <==> b == Finish
    ensures c.Save? ==> step == 3
  {
    match b
    case Continue => MoveTo(step + 1)
    case Back => MoveTo(step - 1)
    case Finish => Save
  }

  /** Where a sequence of clicks leads: the step it ends on, or the number of
      clicks after which `save` ran. Clicks on buttons the current step does
      not show cannot happen and are skipped. */
  datatype Walk = At(step: Step) | Saved(clicks: nat)

  function Run(step: Step, clicks: seq<Button>): (w: Walk)
    ensures |clicks| == 0 ==> w == At(step)
    ensures w.Saved? ==> 1 <= w.clicks <= |clicks| && clicks[w.clicks - 1] == Finish
    decreases |clicks|
  {
    if |clicks| == 0 then At(step)
    else if clicks[0] !in Buttons(step) then
      match Run(step, clicks[1..])
      case At(s) => At(s)
      case Saved(n) => Saved(n + 1)
    else
      match Press(step, clicks[0])
      case Save => Saved(1)
      case MoveTo(s) =>
        match Run(s, clicks[1..])
        case At(t) => At(t)
        case Saved(n) => Saved(n + 1)
  }

  /** How many times `b` occurs among the clicks. */
  function Count(clicks: seq<Button>, b: Button): nat
    decreases |clicks|
  {
    if |clicks| == 0 then 0 else (if clicks[0] == b then 1 else 0) + Count(clicks[1..], b)
  }

  /** Counting over a non-empty prefix peels off its first click. */
  lemma CountPrefix(clicks: seq<Button>, k: nat, b: Button)
    requires 1 <= k <= |clicks|
    ensures Count(clicks[..k], b) == (if clicks[0] == b then 1 else 0) + Count(clicks[1..][..k - 1], b)
  {
    assert clicks[..k][0] == clicks[0];
    assert clicks[..k][1..] == clicks[1..][..k - 1];
  }

  /** `save` runs on a click of "Concluir", after at least one click of
      "Continuar" per step still to go: two from the first step. */
  lemma {:induction false} SaveNeedsEveryStep(step: Step, clicks: seq<Button>)
    ensures var w := Run(step, clicks);
      w.Saved? ==> clicks[w.clicks - 1] == Finish && Count(clicks[..w.clicks - 1], Continue) >= 3 - step
    decreases |clicks|
  {
    var w := Run(step, clicks);
    if |clicks| > 0 && w.Saved? {
      var n := w.clicks;
      if n == 1 {
        assert clicks[0] in Buttons(step) && Press(step, clicks[0]).Save?;
      } else {
        CountPrefix(clicks, n - 1, Continue);
        assert clicks[1..][n - 2] == clicks[n - 1];
        if clicks[0] !in Buttons(step) {
          SaveNeedsEveryStep(step, clicks[1..]);
        } else {
          SaveNeedsEveryStep(Press(step, clicks[0]).step, clicks[1..]);
        }
      }
    }
  }

  /** Three clicks on the forward buttons do reach `save`. */
  lemma ShortestWalkSaves()
    ensures Run(1, [Continue, Continue, Finish]) == Saved(3)
  {
  }

  /** What the backend did when `save` ran. */
  datatype SaveRun =
    | SignedOut
    | RpcAnswered(rpcFailed: bool)
    | Threw(message: Option<string>)

  /** The fallback profile update written when the RPC fails. */
  datatype ProfileUpdate = ProfileUpdate(interests: seq<string>, conditions: seq<string>, radius: int, onboarded: bool)

  datatype SaveEffect = SaveEffect(
    fallback: Option<ProfileUpdate>,
    notice: Option<Notice>,
    navigation: Option<Navigation>)

  const SavedText := "Preferências salvas!"
  const SaveFailedText := "Falha ao salvar onboarding"

  /** `save`: without a session, back to `/auth`; a failed RPC is followed by
      the plain update with `onboarded` set, whose own result is ignored;
      either way the user is told the preferences were saved and sent to the
      profile. A thrown error keeps the user here with its message, or with
      the default text only when the message is missing. */
  function SaveOutcome(p: Preferences, run: SaveRun): (e: SaveEffect)
    ensures e.navigation == Some(Push("/profile")) <==> run.RpcAnswered?
    ensures e.navigation == Some(Replace("/auth")) <==> run.SignedOut?
    ensures e.navigation.None? <==> run.Threw?
    ensures e.fallback.Some? <==> run.RpcAnswered? && run.rpcFailed
    ensures e.fallback.Some? ==>
      e.fallback.value == ProfileUpdate(p.interests, p.conditions, p.radius, true)
    ensures run.RpcAnswered? ==> e.notice == Some(Success(SavedText))
    ensures run.Threw? && run.message.Some? ==> e.notice == Some(Failure(run.message.value))
    ensures run.Threw? && run.message.None? ==> e.notice == Some(Failure(SaveFailedText))
    ensures run.SignedOut? ==> e.notice.None?
  {
    match run
    case SignedOut => SaveEffect(None, None, Some(Replace("/auth")))
    case RpcAnswered(failed) =>
      var fallback := if failed then Some(ProfileUpdate(p.interests, p.conditions, p.radius, true)) else None;
      SaveEffect(fallback, Some(Success(SavedText)), Some(Push("/profile")))
    case Threw(m) => SaveEffect(None, Some(Failure(m.OrElse(SaveFailedText))), None)
  }
}

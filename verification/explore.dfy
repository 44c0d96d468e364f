/** The swipe feed: which card is on top, what a drag or a key press does
    to it, the card's photo browser, and how a like or a pass reshapes the
    feed. */
module Explore {

  import opened Wrappers
  import opened Effects
  import Seqs
  import Conditions

  /** A feed row as `get_feed` returns it; `images` may be missing. */
  datatype FeedItem = FeedItem(
    id: string,
    sellerId: string,
    title: string,
    description: Option<string>,
    category: string,
    condition: string,
    priceCents: int,
    images: Option<seq<string>>,
    photosCount: int,
    distanceKm: Option<real>)

  /** The two verdicts a card can receive. */
  datatype Verdict = Like | Pass

  /** How far, in pixels, a card must be dragged to count as a verdict. */
  const DragThreshold: real := 120.0

  /** `endDrag`: far enough right is a like, far enough left is a pass, and
      anything within the threshold either way does nothing. */
  function EndDrag(dx: real): (v: Option<Verdict>)
    ensures v == Some(Like) <==> dx > DragThreshold
    ensures v == Some(Pass) <==> dx < -DragThreshold
    ensures v.None? <==> -DragThreshold <= dx <= DragThreshold
  {
    if dx > DragThreshold then Some(Like)
    else if dx < -DragThreshold then Some(Pass)
    else None
  }

  /** Dragging the mirror way gives the opposite verdict. */
  lemma EndDragMirrors(dx: real)
    ensures EndDrag(dx) == Some(Like) <==> EndDrag(-dx) == Some(Pass)
    ensures EndDrag(dx).None? <==> EndDrag(-dx).None?
  {
  }

  /** The photo arrows under a card. */
  datatype Arrow = Previous | Following

  /** One arrow click on the photo index of a card with `count` photos. */
  function Step(count: int, i: int, a: Arrow): (j: int)
    ensures 0 <= i < count ==> 0 <= j < count
    ensures a == Previous && 0 < i ==> j == i - 1
    ensures a == Previous && i == 0 ==> j == 0
    ensures a == Following && i < count - 1 ==> j == i + 1
    ensures a == Following && i == count - 1 ==> j == i
  {
    match a
    case Previous => if 0 > i - 1 then 0 else i - 1
    case Following => if count - 1 < i + 1 then count - 1 else i + 1
  }

  /** The arrows are shown only for cards with more than one photo; clicking
      them from the first photo never leaves the photo list. */
  function Browse(count: int, i: int, arrows: seq<Arrow>): (j: int)
    requires count > 1 && 0 <= i < count
    ensures 0 <= j < count
    decreases |arrows|
  {
    if |arrows| == 0 then i else Browse(count, Step(count, i, arrows[0]), arrows[1..])
  }

  /** A step forward that did not hit the last photo is undone by a step back. */
  lemma StepBackUndoesForward(count: int, i: int)
    requires 0 <= i < count - 1
    ensures Step(count, Step(count, i, Following), Previous) == i
  {
  }

  /** The photo a card shows: the one at the index, or the placeholder when
      the card has no photo list or the index is outside it. */
  const Placeholder := "/placeholder.png"

  function DisplayedImage(images: Option<seq<string>>, i: int): (shown: string)
    ensures images.Some? && 0 <= i < |images.value| ==> shown == images.value[i]
    ensures images.None? || i < 0 || i >= |images.value| ==> shown == Placeholder
  {
    if images.Some? && 0 <= i < |images.value| then images.value[i] else Placeholder
  }

  /** Whatever the arrows do, a card with several photos shows one of its own
      photos. */
  lemma BrowsedImageIsOwn(images: seq<string>, arrows: seq<Arrow>)
    requires |images| > 1
    ensures DisplayedImage(Some(images), Browse(|images|, 0, arrows)) in images
  {
  }

  /** The filter test that keeps every item whose id is not `id`. */
  function OtherId(id: string): FeedItem -> bool {
    (x: FeedItem) => x.id != id
  }

  /** `prev.filter(x => x.id !== id)`. */
  function RemoveById(feed: seq<FeedItem>, id: string): (r: seq<FeedItem>)
    ensures forall i :: 0 <= i < |r| ==> r[i].id != id && r[i] in feed
    ensures forall i :: 0 <= i < |feed| && feed[i].id != id ==> feed[i] in r
    ensures |r| <= |feed|
  {
    Seqs.Filter(feed, OtherId(id))
  }

  /** Removal works piecewise, so the items that stay keep their order. */
  lemma RemoveKeepsOrder(a: seq<FeedItem>, b: seq<FeedItem>, id: string)
    ensures RemoveById(a + b, id) == RemoveById(a, id) + RemoveById(b, id)
  {
    Seqs.FilterAppend(a, b, OtherId(id));
  }

  /** Removing an id that is not in the feed changes nothing. */
  lemma RemoveAbsentId(feed: seq<FeedItem>, id: string)
    requires forall i :: 0 <= i < |feed| ==> feed[i].id != id
    ensures RemoveById(feed, id) == feed
  {
    Seqs.FilterKeepsAll(feed, OtherId(id));
  }

  /** No two items share an id. */
  predicate DistinctIds(feed: seq<FeedItem>) {
    forall i, j :: 0 <= i < j < |feed| ==> feed[i].id != feed[j].id
  }

  /** `feed[index] ?? null`. */
  function Current(feed: seq<FeedItem>, index: int): (c: Option<FeedItem>)
    ensures c.Some? <==> 0 <= index < |feed|
    ensures c.Some? ==> c.value == feed[index]
  {
    if 0 <= index < |feed| then Some(feed[index]) else None
  }

  /** The index never leaves 0, so a verdict on the top card of a feed with
      distinct ids uncovers the next card, and the last card leaves the feed
      empty. */
  lemma VerdictUncoversNext(feed: seq<FeedItem>)
    requires DistinctIds(feed) && |feed| > 0
    ensures RemoveById(feed, Current(feed, 0).value.id) == feed[1..]
    ensures Current(RemoveById(feed, feed[0].id), 0) == Current(feed, 1)
  {
    var id := feed[0].id;
    var rest := feed[1..];
    forall i | 0 <= i < |rest|
      ensures rest[i].id != id
    {
      assert rest[i] == feed[i + 1];
    }
    RemoveAbsentId(rest, id);
    RemoveKeepsOrder([feed[0]], rest, id);
    var gone := RemoveById([feed[0]], id);
    assert gone == [];
    calc {
      RemoveById(feed, id);
      { assert feed == [feed[0]] + rest; }
      RemoveById([feed[0]] + rest, id);
      gone + RemoveById(rest, id);
      rest;
    }
  }

  /** How `like_and_open_chat` answered: the new chat's id, or an error
      (returned or thrown) whose message may be missing. */
  datatype LikeAnswer = ChatOpened(chatId: string) | LikeFailed(message: Option<string>)

  /** How `pass_listing` went: it returned, with or without an error, or it
      threw. */
  datatype PassAnswer = PassReturned(error: bool) | PassThrew(message: Option<string>)

  datatype Reaction = Reaction(feed: seq<FeedItem>, notice: Notice, navigation: Option<Navigation>)

  const LikeFailedText := "Falha ao criar chat"
  const PassFailedText := "Falha ao ignorar"

  /** `like`: the item leaves the feed only when the chat was opened, and
      then the page goes to that chat; otherwise the feed is unchanged and
      the error's message, or the default text when it is missing, is shown. */
  function LikeOutcome(feed: seq<FeedItem>, item: FeedItem, answer: LikeAnswer): (r: Reaction)
    ensures answer.ChatOpened? ==> r.feed == RemoveById(feed, item.id)
    ensures answer.ChatOpened? ==> r.navigation == Some(Push("/chat/" + answer.chatId))
    ensures answer.LikeFailed? ==> r.feed == feed && r.navigation.None?
    ensures answer.LikeFailed? ==> r.notice == Failure(answer.message.OrElse(LikeFailedText))
  {
    match answer
    case ChatOpened(chat) => Reaction(RemoveById(feed, item.id), Success("Match! Abrindo chat…"), Some(Push("/chat/" + chat)))
    case LikeFailed(m) => Reaction(feed, Failure(m.OrElse(LikeFailedText)), None)
  }

  /** `pass`: the answer's error is not looked at, so the item leaves the
      feed whenever the call returns; only a thrown error keeps it. */
  function PassOutcome(feed: seq<FeedItem>, item: FeedItem, answer: PassAnswer): (r: Reaction)
    ensures answer.PassReturned? ==> r.feed == RemoveById(feed, item.id) && r.notice == Info("Ignorado")
    ensures answer.PassThrew? ==> r.feed == feed && r.notice == Failure(answer.message.OrElse(PassFailedText))
    ensures r.navigation.None?
  {
    match answer
    case PassReturned(_) => Reaction(RemoveById(feed, item.id), Info("Ignorado"), None)
    case PassThrew(m) => Reaction(feed, Failure(m.OrElse(PassFailedText)), None)
  }

  /** A like that failed and a pass that threw leave the feed alone; a pass
      whose answer carried an error still removes the item. */
  lemma OnlySuccessfulLikeRemoves(feed: seq<FeedItem>, item: FeedItem, m: Option<string>)
    requires item in feed
    ensures LikeOutcome(feed, item, LikeFailed(m)).feed == feed
    ensures item !in LikeOutcome(feed, item, ChatOpened("")).feed
    ensures item !in PassOutcome(feed, item, PassReturned(true)).feed
  {
  }

  /** `onKey`: the four independent tests, in order, each giving the verdict
      it triggers. `lower` is `String.prototype.toLowerCase`. */
  function KeyVerdicts(key: string, lower: string -> string): (vs: seq<Verdict>)
    ensures |vs| <= 4
    ensures Like in vs <==> key == "ArrowRight" || lower(key) == "l"
    ensures Pass in vs <==> key == "ArrowLeft" || lower(key) == "h"
  {
    (if key == "ArrowRight" then [Like] else [])
    + (if key == "ArrowLeft" then [Pass] else [])
    + (if lower(key) == "l" then [Like] else [])
    + (if lower(key) == "h" then [Pass] else [])
  }

  /** A key press acts on the top card only when there is one. */
  function OnKey(feed: seq<FeedItem>, key: string, lower: string -> string): (vs: seq<Verdict>)
    ensures Current(feed, 0).None? ==> vs == []
    ensures Current(feed, 0).Some? ==> vs == KeyVerdicts(key, lower)
  {
    if Current(feed, 0).Some? then KeyVerdicts(key, lower) else []
  }

  /** The property of lower-casing the key map relies on: exactly `l` and `L`
      lower-case to `l`, and exactly `h` and `H` to `h`. */
  ghost predicate LowersLetters(lower: string -> string) {
    && (forall k :: lower(k) == "l" <==> k == "l" || k == "L")
    && (forall k :: lower(k) == "h" <==> k == "h" || k == "H")
  }

  /** With such a lower-casing, the arrows and `l`/`h` in either case give one
      verdict each and every other key gives none. */
  lemma KeyMap(key: string, lower: string -> string)
    requires LowersLetters(lower)
    ensures KeyVerdicts(key, lower) == [Like] <==> key in {"ArrowRight", "l", "L"}
    ensures KeyVerdicts(key, lower) == [Pass] <==> key in {"ArrowLeft", "h", "H"}
    ensures KeyVerdicts(key, lower) == [] <==> key !in {"ArrowRight", "l", "L", "ArrowLeft", "h", "H"}
  {
    var vs := KeyVerdicts(key, lower);
    if key == "ArrowRight" {
      assert lower(key) != "l" && lower(key) != "h";
      assert vs == [Like];
    } else if key == "ArrowLeft" {
      assert lower(key) != "l" && lower(key) != "h";
      assert vs == [Pass];
    } else if key == "l" || key == "L" {
      assert lower(key) == "l";
      assert vs == [Like];
    } else if key == "h" || key == "H" {
      assert lower(key) == "h";
      assert vs == [Pass];
    } else {
      assert lower(key) != "l" && lower(key) != "h";
      assert vs == [];
    }
  }

  /** ASCII lower-casing of one character. */
  function LowerChar(c: char): (d: char)
    ensures 'A' <= c <= 'Z' ==> 'a' <= d <= 'z' && d as int - c as int == 32
    ensures !('A' <= c <= 'Z') ==> d == c
  {
    if 'A' <= c <= 'Z' then (c as int + 32) as char else c
  }

  /** ASCII lower-casing, one character at a time. */
  function AsciiLower(s: string): (r: string)
    ensures |r| == |s|
  {
    if |s| == 0 then [] else [LowerChar(s[0])] + AsciiLower(s[1..])
  }

  /** ASCII lower-casing is such a lower-casing. */
  lemma AsciiLowerLowersLetters()
    ensures LowersLetters(AsciiLower)
  {
  }

  /** The condition tag on a card. */
  function ConditionTag(item: FeedItem): (shown: string)
    ensures shown == Conditions.Label(item.condition)
    ensures shown in {"novo", "seminovo", "peças"}
  {
    Conditions.Label(item.condition)
  }
}

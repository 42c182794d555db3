/** The gallery's two pieces of session state — the ids whose image failed to
    load and the guest shown in the lightbox, if any — and the events that
    change them. Each handler is one atomic update. */
module Session {
  import opened Guests

  /** `errors` is the set of ids whose image failed; `lightbox` is None when
      the lightbox is closed and Some(g) when it shows guest g. */
  datatype UiState = UiState(errors: set<int>, lightbox: Option<GuestItem>)

  /** ImageError(k) is an image's load-failure callback for guest id k (from
      a card or from the lightbox); CardClick(g) a click on the card of g;
      the other three are clicks on the parts of the open lightbox. */
  datatype Event =
    | ImageError(guestId: int)
    | CardClick(guest: GuestItem)
    | BackdropClick
    | CloseButtonClick
    | InnerPanelClick

  /** Mounting the component: nothing failed, lightbox closed. */
  function Initial(): (s: UiState)
    ensures s.errors == {} && s.lightbox.None?
  {
    UiState({}, None)
  }

  /** The state after one event handler has run: only an image failure
      touches the failure set, adding its id; a card click selects its guest,
      the backdrop and the close button clear the selection, and the rest
      leave it. */
  function Step(s: UiState, e: Event): (t: UiState)
    ensures t.errors == s.errors + (if e.ImageError? then {e.guestId} else {})
    ensures e.CardClick? ==> t.lightbox == Some(e.guest)
    ensures e.BackdropClick? || e.CloseButtonClick? ==> t.lightbox.None?
    ensures e.ImageError? || e.InnerPanelClick? ==> t.lightbox == s.lightbox
  {
    match e
    case ImageError(k) => s.(errors := s.errors + {k})
    case CardClick(g) => s.(lightbox := Some(g))
    case BackdropClick => s.(lightbox := None)
    case CloseButtonClick => s.(lightbox := None)
    case InnerPanelClick => s
  }

  /** The state after a sequence of events, handled in order. */
  function Run(s: UiState, events: seq<Event>): UiState
    decreases |events|
  {
    if events == [] then s else Run(Step(s, events[0]), events[1..])
  }

  /** The ids whose failure is reported somewhere in `events`. */
  function FailedIds(events: seq<Event>): set<int> {
    set i | 0 <= i < |events| && events[i].ImageError? :: events[i].guestId
  }

  /** An image failure adds exactly its id to the set and leaves the lightbox
      alone; a second report of the same id changes nothing. */
  lemma ImageErrorEffect(s: UiState, k: int)
    ensures Step(s, ImageError(k)).errors == s.errors + {k}
    ensures k in Step(s, ImageError(k)).errors
    ensures s.errors <= Step(s, ImageError(k)).errors
    ensures Step(s, ImageError(k)).lightbox == s.lightbox
    ensures Step(Step(s, ImageError(k)), ImageError(k)) == Step(s, ImageError(k))
    ensures k in s.errors ==> Step(s, ImageError(k)) == s
  {
  }

  /** The lightbox transitions: a card click opens on that card's guest from
      any state, the backdrop and the close button close, a click inside the
      panel changes nothing; none of them touch the failure set. */
  lemma LightboxTransitions(s: UiState, g: GuestItem)
    ensures Step(s, CardClick(g)) == UiState(s.errors, Some(g))
    ensures Step(s, BackdropClick) == UiState(s.errors, None)
    ensures Step(s, CloseButtonClick) == UiState(s.errors, None)
    ensures Step(s, InnerPanelClick) == s
  {
  }

  /** The two pieces of state are orthogonal: no event's effect on the
      lightbox depends on the failure set, and only image failures change
      the failure set. */
  lemma StepOrthogonal(s: UiState, e: Event, errors: set<int>)
    ensures Step(UiState(errors, s.lightbox), e).lightbox == Step(s, e).lightbox
    ensures !e.ImageError? ==> Step(s, e).errors == s.errors
    ensures e.ImageError? ==> Step(s, e).lightbox == s.lightbox
  {
  }

  lemma {:induction false} RunAppend(s: UiState, a: seq<Event>, b: seq<Event>)
    ensures Run(s, a + b) == Run(Run(s, a), b)
    decreases |a|
  {
    if a != [] {
      assert (a + b)[1..] == a[1..] + b;
      RunAppend(Step(s, a[0]), a[1..], b);
    } else {
      assert a + b == b;
    }
  }

  /** After any sequence of events the failure set is the initial one plus
      every reported id: it never shrinks, and it grows by nothing else. */
  lemma {:induction false} RunErrors(s: UiState, events: seq<Event>)
    ensures Run(s, events).errors == s.errors + FailedIds(events)
    decreases |events|
  {
    if events != [] {
      RunErrors(Step(s, events[0]), events[1..]);
      var rest := events[1..];
      assert FailedIds(events)
          == (if events[0].ImageError? then {events[0].guestId} else {}) + FailedIds(rest)
      by {
        forall k | k in FailedIds(events)
          ensures k in (if events[0].ImageError? then {events[0].guestId} else {}) + FailedIds(rest)
        {
          var i :| 0 <= i < |events| && events[i].ImageError? && events[i].guestId == k;
          if i > 0 { assert rest[i - 1] == events[i]; }
        }
        forall k | k in FailedIds(rest) ensures k in FailedIds(events) {
          var i :| 0 <= i < |rest| && rest[i].ImageError? && rest[i].guestId == k;
          assert events[i + 1] == rest[i];
        }
      }
    }
  }

  /** Whatever happens afterwards, a failed id stays failed. */
  lemma FailureIsPermanent(s: UiState, events: seq<Event>, k: int)
    requires k in s.errors
    ensures k in Run(s, events).errors
  {
    RunErrors(s, events);
  }

  /** The lightbox after any sequence of events does not depend on the
      failure set it started from. */
  lemma {:induction false} RunLightboxIgnoresErrors(s: UiState, errors: set<int>, events: seq<Event>)
    ensures Run(UiState(errors, s.lightbox), events).lightbox == Run(s, events).lightbox
    decreases |events|
  {
    if events != [] {
      StepOrthogonal(s, events[0], errors);
      RunLightboxIgnoresErrors(Step(s, events[0]), Step(UiState(errors, s.lightbox), events[0]).errors, events[1..]);
    }
  }

  /** The last lightbox event decides the lightbox: after a card click on g
      followed only by image failures and clicks inside the panel, g is shown. */
  lemma {:induction false} LightboxStaysOpen(s: UiState, g: GuestItem, events: seq<Event>)
    requires forall i :: 0 <= i < |events| ==> events[i].ImageError? || events[i].InnerPanelClick?
    ensures Run(s, [CardClick(g)] + events).lightbox == Some(g)
    decreases |events|
  {
    RunAppend(s, [CardClick(g)], events);
    LightboxUnchanged(Step(s, CardClick(g)), events);
  }

  lemma {:induction false} LightboxUnchanged(s: UiState, events: seq<Event>)
    requires forall i :: 0 <= i < |events| ==> events[i].ImageError? || events[i].InnerPanelClick?
    ensures Run(s, events).lightbox == s.lightbox
    decreases |events|
  {
    if events != [] {
      LightboxUnchanged(Step(s, events[0]), events[1..]);
    }
  }

  /** The component's state cells, updated in place by its event handlers. */
  class GuestsComponent {
    var imageLoadErrors: set<int>
    var lightboxGuest: Option<GuestItem>

    /** The state as a value. */
    function State(): UiState
      reads this
    {
      UiState(imageLoadErrors, lightboxGuest)
    }

    constructor ()
      ensures imageLoadErrors == {} && lightboxGuest == None
      ensures State() == Initial()
    {
      imageLoadErrors := {};
      lightboxGuest := None;
    }

    /** The image's onError callback: adds the id to the failure set. */
    method HandleImageError(guestId: int)
      modifies this
      ensures imageLoadErrors == old(imageLoadErrors) + {guestId}
      ensures lightboxGuest == old(lightboxGuest)
      ensures State() == Step(old(State()), ImageError(guestId))
    {
      imageLoadErrors := imageLoadErrors + {guestId};
    }

    /** A click on a card opens the lightbox on that card's guest. */
    method OnCardClick(guest: GuestItem)
      modifies this
      ensures lightboxGuest == Some(guest)
      ensures imageLoadErrors == old(imageLoadErrors)
      ensures State() == Step(old(State()), CardClick(guest))
    {
      lightboxGuest := Some(guest);
    }

    /** A click on the dark backdrop around the panel closes the lightbox. */
    method OnBackdropClick()
      modifies this
      ensures lightboxGuest == None
      ensures imageLoadErrors == old(imageLoadErrors)
      ensures State() == Step(old(State()), BackdropClick)
    {
      lightboxGuest := None;
    }

    /** The close button closes the lightbox; the click then reaches the
        backdrop, whose handler closes it again, which changes nothing. */
    method OnCloseButtonClick()
      modifies this
      ensures lightboxGuest == None
      ensures imageLoadErrors == old(imageLoadErrors)
      ensures State() == Step(old(State()), CloseButtonClick)
    {
      lightboxGuest := None;
      lightboxGuest := None;
    }

    /** A click inside the panel stops there: the backdrop never sees it. */
    method OnInnerPanelClick()
      modifies {}
      ensures State() == Step(old(State()), InnerPanelClick)
    {
    }
  }
}

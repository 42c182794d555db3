/** What the gallery shows for a given state, as abstract views rather than
    markup: per card an image or a placeholder and an optional info block,
    and the lightbox overlay when a guest is selected. */
module Render {
  import opened Guests
  import opened Session

  /** An image element with its source and alt text, or the placeholder glyph. */
  datatype ImageView = Placeholder | Picture(src: string, alt: string)

  /** The name heading and title paragraph; each present only when non-empty. */
  datatype InfoBlock = InfoBlock(heading: Option<string>, subtitle: Option<string>)

  datatype CardView = CardView(image: ImageView, info: Option<InfoBlock>)

  datatype OverlayView = OverlayView(image: ImageView, heading: Option<string>, subtitle: Option<string>, description: string)

  datatype PageView = PageView(cards: seq<CardView>, overlay: Option<OverlayView>)

  /** A string-valued condition: rendered only when truthy, i.e. non-empty. */
  function IfNonEmpty(text: string): (r: Option<string>)
    ensures r.Some? <==> text != ""
    ensures r.Some? ==> r.value == text
  {
    if text != "" then Some(text) else None
  }

  /** The alt text: the name, or "Guest" when the name is empty; so an image
      never has an empty alt text. */
  function AltText(name: string): (alt: string)
    ensures alt != ""
    ensures name != "" ==> alt == name
    ensures name == "" ==> alt == "Guest"
  {
    if name != "" then name else "Guest"
  }

  /** A guest's image: the placeholder once its id is in the failure set,
      otherwise the image at the guest's path. */
  function GuestImage(guest: GuestItem, errors: set<int>): (v: ImageView)
    ensures v.Placeholder? <==> guest.id in errors
    ensures v.Picture? ==> v.src == guest.src && v.alt == AltText(guest.name)
  {
    if guest.id in errors then Placeholder else Picture(guest.src, AltText(guest.name))
  }

  /** A grid card: the guest's image, and the info block only when the name
      or the title is non-empty, holding just the non-empty ones. */
  function Card(guest: GuestItem, errors: set<int>): (c: CardView)
    ensures c.image == GuestImage(guest, errors)
    ensures c.info.Some? <==> guest.name != "" || guest.title != ""
    ensures c.info.Some? ==> c.info.value == InfoBlock(IfNonEmpty(guest.name), IfNonEmpty(guest.title))
  {
    CardView(GuestImage(guest, errors),
             if guest.name != "" || guest.title != ""
             then Some(InfoBlock(IfNonEmpty(guest.name), IfNonEmpty(guest.title)))
             else None)
  }

  /** The lightbox panel for the selected guest: its image under the same
      failure rule, name and title when non-empty, the description always. */
  function Overlay(guest: GuestItem, errors: set<int>): (o: OverlayView)
    ensures o.image == GuestImage(guest, errors)
    ensures o.heading == IfNonEmpty(guest.name) && o.subtitle == IfNonEmpty(guest.title)
    ensures o.description == guest.description
  {
    OverlayView(GuestImage(guest, errors), IfNonEmpty(guest.name), IfNonEmpty(guest.title), guest.description)
  }

  /** The whole page: one card per generated record, in order, and the
      overlay exactly when a guest is selected. */
  function Page(s: UiState): (p: PageView)
    ensures |p.cards| == |AllGuests()|
    ensures forall i :: 0 <= i < |p.cards| ==> p.cards[i] == Card(AllGuests()[i], s.errors)
    ensures p.overlay.Some? <==> s.lightbox.Some?
    ensures s.lightbox.Some? ==> p.overlay.value == Overlay(s.lightbox.value, s.errors)
  {
    var guests := AllGuests();
    PageView(seq(|guests|, i requires 0 <= i < |guests| => Card(guests[i], s.errors)),
             if s.lightbox.Some? then Some(Overlay(s.lightbox.value, s.errors)) else None)
  }

  /** The grid and the lightbox consult one failure set: when the selected
      guest is the record of card i, both show the same image or both the
      placeholder. */
  lemma SharedFailureSet(s: UiState, i: nat)
    requires i < |AllGuests()| && s.lightbox == Some(AllGuests()[i])
    ensures Page(s).overlay.Some? && Page(s).overlay.value.image == Page(s).cards[i].image
  {
  }

  /** Once an id has failed, every later page — whatever events follow —
      shows the placeholder for it, on its card and in the lightbox. */
  lemma PlaceholderAfterFailure(s: UiState, k: int, events: seq<Event>)
    ensures forall i :: 0 <= i < |AllGuests()| && AllGuests()[i].id == k ==>
              Page(Run(Step(s, ImageError(k)), events)).cards[i].image == Placeholder
    ensures Run(Step(s, ImageError(k)), events).lightbox.Some?
            && Run(Step(s, ImageError(k)), events).lightbox.value.id == k ==>
              Page(Run(Step(s, ImageError(k)), events)).overlay.value.image == Placeholder
  {
    FailureIsPermanent(Step(s, ImageError(k)), events, k);
  }

  /** A record with empty name and title shows no info block on its card, and
      neither heading nor title in the lightbox; a record with either field
      non-empty shows the block with exactly the non-empty fields. */
  lemma InfoBlockRule(guest: GuestItem, errors: set<int>)
    ensures guest.name == "" && guest.title == "" ==>
              Card(guest, errors).info.None?
              && Overlay(guest, errors).heading.None? && Overlay(guest, errors).subtitle.None?
    ensures guest.name != "" || guest.title != "" ==>
              Card(guest, errors).info.Some?
              && (Card(guest, errors).info.value.heading.Some? <==> guest.name != "")
              && (Card(guest, errors).info.value.subtitle.Some? <==> guest.title != "")
  {
  }

  /** With the generated records no card shows an info block, every image
      that is shown has alt text "Guest", and an open lightbox on a generated
      record shows only the image and the fixed description. */
  lemma GeneratedRecordsView(s: UiState)
    ensures forall i :: 0 <= i < |Page(s).cards| ==> Page(s).cards[i].info.None?
    ensures forall i :: 0 <= i < |Page(s).cards| && Page(s).cards[i].image.Picture? ==>
              Page(s).cards[i].image.alt == "Guest"
    ensures s.lightbox.Some? && s.lightbox.value in AllGuests() ==>
              Page(s).overlay.value.heading.None? && Page(s).overlay.value.subtitle.None?
              && Page(s).overlay.value.description == GuestDescription
  {
    AllGuestsFields();
  }

  /** The events the page drawn for `s` can emit: an image failure only from
      an image it shows (on a card or in the lightbox), a card click only on
      a generated record, and the three lightbox clicks only while it is open. */
  predicate Enabled(s: UiState, e: Event) {
    match e
    case ImageError(k) =>
      (exists i :: 0 <= i < |AllGuests()| && AllGuests()[i].id == k && Page(s).cards[i].image.Picture?)
      || (s.lightbox.Some? && s.lightbox.value.id == k && Page(s).overlay.value.image.Picture?)
    case CardClick(g) => g in AllGuests()
    case BackdropClick => s.lightbox.Some?
    case CloseButtonClick => s.lightbox.Some?
    case InnerPanelClick => s.lightbox.Some?
  }

  /** Every event of the sequence is one the page could emit when it came. */
  predicate EnabledRun(s: UiState, events: seq<Event>)
    decreases |events|
  {
    events == [] || (Enabled(s, events[0]) && EnabledRun(Step(s, events[0]), events[1..]))
  }

  /** Only generated ids can be in the failure set and only a generated
      record can be in the lightbox. */
  predicate Consistent(s: UiState) {
    s.errors <= Ids(AllGuests()) && (s.lightbox.Some? ==> s.lightbox.value in AllGuests())
  }

  /** One emitted event keeps the state consistent, and a failure is only
      ever reported for an id that had not failed yet, since a failed id's
      image is no longer drawn. */
  lemma StepConsistent(s: UiState, e: Event)
    requires Consistent(s) && Enabled(s, e)
    ensures Consistent(Step(s, e))
    ensures e.ImageError? ==> e.guestId !in s.errors
  {
  }

  /** Any sequence of events the page can emit keeps the state consistent. */
  lemma {:induction false} EnabledRunConsistent(s: UiState, events: seq<Event>)
    requires Consistent(s) && EnabledRun(s, events)
    ensures Consistent(Run(s, events))
    decreases |events|
  {
    if events != [] {
      StepConsistent(s, events[0]);
      EnabledRunConsistent(Step(s, events[0]), events[1..]);
    }
  }

  lemma MountIsConsistent()
    ensures Consistent(Initial())
  {
  }

  /** The grid after the image of guest 25 failed: 56 cards, and only the
      card at position 23, which is guest 25's, shows the placeholder. */
  lemma GridAfterFailure25()
    ensures |Page(Step(Initial(), ImageError(25))).cards| == 56
    ensures forall i :: 0 <= i < 56 ==>
              (Page(Step(Initial(), ImageError(25))).cards[i].image.Placeholder? <==> i == 23)
  {
    AllGuestsShape();
  }

  /** The first card is guest 1, whose image path is `/Guests/guests1.png`. */
  lemma FirstGuest()
    ensures |AllGuests()| > 0 && AllGuests()[0] == MakeGuest(1)
    ensures AllGuests()[0].src == "/Guests/guests1.png"
  {
    GenerateShape(GuestCount, SkippedGuest);
    assert ImagePath(1) == "/Guests/guests1.png";
  }

  /** Mount the gallery, let the image of guest 25 fail, open guest 1, close
      by clicking the backdrop: card 25 alone shows the placeholder, the
      lightbox shows guest 1's image and the description, and the lightbox
      ends closed with the failure remembered. */
  lemma Scenario()
    ensures |Page(Initial()).cards| == 56 && Page(Initial()).overlay.None?
    ensures forall i :: 0 <= i < 56 ==>
              (Page(Step(Initial(), ImageError(25))).cards[i].image.Placeholder? <==> i == 23)
    ensures Page(Run(Initial(), [ImageError(25), CardClick(AllGuests()[0])])).overlay
         == Some(OverlayView(Picture("/Guests/guests1.png", "Guest"), None, None, GuestDescription))
    ensures Run(Initial(), [ImageError(25), CardClick(AllGuests()[0])] + [BackdropClick])
         == UiState({25}, None)
  {
    GridAfterFailure25();
    FirstGuest();
    var first := AllGuests()[0];
    var s1 := Step(Initial(), ImageError(25));
    var s2 := Step(s1, CardClick(first));
    var openEvents := [ImageError(25), CardClick(first)];
    assert openEvents[1..] == [CardClick(first)] && openEvents[1..][1..] == [];
    assert Run(Initial(), openEvents) == Run(s1, openEvents[1..]);
    assert Run(s1, openEvents[1..]) == Run(s2, []) == s2;
    var closeEvents := openEvents + [BackdropClick];
    assert closeEvents[1..] == [CardClick(first), BackdropClick];
    assert closeEvents[1..][1..] == [BackdropClick] && closeEvents[1..][1..][1..] == [];
    assert Run(Initial(), closeEvents) == Run(s1, closeEvents[1..]);
    assert Run(s1, closeEvents[1..]) == Run(s2, [BackdropClick]);
    assert Run(s2, [BackdropClick]) == Run(Step(s2, BackdropClick), []);
  }

  /** The same scenario driven through the component's handlers. */
  method ScenarioOnComponent() returns (grid: seq<CardView>, shown: Option<OverlayView>, final: UiState)
    ensures |grid| == 56 && forall i :: 0 <= i < 56 ==> (grid[i].image.Placeholder? <==> i == 23)
    ensures shown == Some(OverlayView(Picture("/Guests/guests1.png", "Guest"), None, None, GuestDescription))
    ensures final == UiState({25}, None)
  {
    GridAfterFailure25();
    FirstGuest();
    var component := new GuestsComponent();
    component.HandleImageError(25);
    grid := Page(component.State()).cards;
    component.OnCardClick(AllGuests()[0]);
    shown := Page(component.State()).overlay;
    component.OnBackdropClick();
    final := component.State();
  }
}

# Guests gallery — a Dafny model

This project models the `Guests` gallery component of a small single-page web
site. The component builds a fixed list of guest records and shows them as a
grid of cards. Clicking a card opens a lightbox on that guest. When a guest's
image fails to load, a placeholder glyph is shown instead, on the card and in the
lightbox.

The model has four modules:

- `Decimal` (`decimal.dfy`): how a template literal writes an integral number
  below 10^21, which covers the ids used here (up to 57): its base-ten digits.
  It includes the inverse parse, so distinct numbers give distinct texts.
- `Guests` (`guests.dfy`): the `GuestItem` record and the generator. The
  generator follows the code. `Array.from` calls a callback once per slot, which
  becomes a sequence comprehension over `Slot`. The callback returns `null` for
  the skipped number, and `filter(Boolean)` then drops those slots, which becomes
  `Present`. The length 57 and the skipped number 10 are parameters of
  `Generate`, and `AllGuests()` is `Generate(57, 10)`.
- `Session` (`session.dfy`): the component's two state cells, as a value
  `UiState` and as the class `GuestsComponent`. The cells are `imageLoadErrors`,
  a set of ids, and `lightboxGuest`, which is either no guest or one guest.
  `Step` is one event handler and `Run` is a sequence of handlers. Each class
  method changes its fields exactly as `Step` does for its event.
- `Render` (`render.dfy`): what is drawn, as abstract views rather than markup.
  Each card shows an image or a placeholder, with an optional info block. The
  lightbox overlay shows an image or a placeholder, an optional heading and
  subtitle, and the description. `Enabled` says which events the drawn page can
  emit.

JavaScript truthiness of strings (`name || title`, `name && …`) is modelled as
the test `!= ""`.

In the code the close button is a child of the backdrop element. Its click
therefore runs the button's handler and then the backdrop's handler, and both
clear the selection. `OnCloseButtonClick` performs both assignments.

The card handler sets the selection whatever the current state, so `Step` opens
on the clicked guest from any state. While the lightbox is open, its full-screen
backdrop covers the grid. `Enabled` over-approximates by still allowing
`CardClick` then. That only widens the runs `EnabledRunConsistent` covers.

## Model

| member | source | states |
|---|---|---|
| `Decimal.NatToString` | src/components/Guests.tsx:23 | the text of a number is non-empty and all digits, has no leading zero except for 0 itself, and is one digit exactly for numbers below ten |
| `Decimal.ParseNatToString` | src/components/Guests.tsx:23 | reading the decimal text of n back gives n |
| `Decimal.NatToStringInjective` | src/components/Guests.tsx:23 | distinct numbers have distinct decimal texts |
| `Guests.ImagePath` | src/components/Guests.tsx:23 | no contract of its own: the path is `/Guests/guests`, then the number's decimal text, then `.png`; `ImagePathNumber` cuts the number's text back out, and `ImagePathInjective` shows distinct numbers give distinct paths |
| `Guests.MakeGuest` | src/components/Guests.tsx:21-27 | the record for a number has that id, the image path of that id, empty name and title, and the fixed description |
| `Guests.Slot` | src/components/Guests.tsx:16-19 | the callback gives nothing exactly for the skipped number, and otherwise the record of number index + 1 |
| `Guests.Slots` | src/components/Guests.tsx:15 | one slot per index below the length; a slot is empty exactly when its number is the skipped one, and every other slot holds the record of its own number |
| `Guests.Present` | src/components/Guests.tsx:28 | the filter keeps exactly the values of the present slots, and it keeps all of them when no slot is empty; its order is given by `GenerateShape` |
| `Guests.SlotsHold` | src/components/Guests.tsx:15-19 | the present slots hold exactly the records of 1..length other than the skipped number |
| `Guests.Generate` | src/components/Guests.tsx:15-28 | the list holds exactly the records built for 1..length other than the skipped number; length, order and positions are in `GenerateShape` and `GenerateIds` |
| `Guests.AllGuests` | src/components/Guests.tsx:15-28 | every record of the gallery has an id in 1..57 other than 10, the path of that id, empty name and title, and the fixed description; count and order are in `AllGuestsShape` |
| `Guests.ImagePathNumber` | src/components/Guests.tsx:23 | the image path is the prefix, then the number's decimal text, then the suffix, and the number's text can be cut back out |
| `Guests.ImagePathInjective` | src/components/Guests.tsx:23 | distinct guest numbers have distinct image paths |
| `Guests.GenerateStep` | src/components/Guests.tsx:15-28 | one more slot appends that slot's record, or nothing when it is the skipped number |
| `Guests.GenerateShape` | src/components/Guests.tsx:15-28 | the list has length n-1 when the skipped number is in 1..n and n otherwise, and position i holds the record built for id i+1, or id i+2 at or past the skipped number |
| `Guests.GenerateIds` | src/components/Guests.tsx:15-28 | the ids are exactly 1..n without the skipped number, in strictly ascending order, and each record is the one built for its id |
| `Guests.AllGuestsShape` | src/components/Guests.tsx:14-28 | the gallery has 56 records with ids 1..9 and 11..57, in ascending order; id 10 is absent |
| `Guests.AllGuestsFields` | src/components/Guests.tsx:21-27 | every record's path is `/Guests/guests<id>.png`, name and title are empty, the description is the fixed sentence, and no two records share a path |
| `Guests.SrcDependsOnIdOnly` | src/components/Guests.tsx:21-23 | two records share a path iff they share an id iff they are at the same position |
| `Session.Initial` | src/components/Guests.tsx:30-31 | at mount the failure set is empty and the lightbox is closed |
| `Session.Step` | src/components/Guests.tsx:33-35 | one handler: only an image failure changes the failure set, by adding its id; a card click selects its guest; the backdrop and the close button (lines 191 and 273) clear the selection; an image failure or an inner-panel click (line 207) keeps it |
| `Session.ImageErrorEffect` | src/components/Guests.tsx:33-35 | a failure for k adds exactly k and keeps the lightbox; the set never shrinks; a repeated failure for k changes nothing |
| `Session.LightboxTransitions` | src/components/Guests.tsx:116-273 | a card click opens on that guest from any state; a backdrop or close-button click closes; an inner-panel click changes nothing; none touch the failure set |
| `Session.StepOrthogonal` | src/components/Guests.tsx:30-35 | no event's effect on the lightbox depends on the failure set; only image failures change the failure set, and they leave the lightbox alone |
| `Session.RunAppend` | src/components/Guests.tsx:30-35 | handling a then b is handling a, then handling b from the resulting state |
| `Session.RunErrors` | src/components/Guests.tsx:33-35 | after any event sequence, the failure set is the initial set plus every reported id |
| `Session.FailureIsPermanent` | src/components/Guests.tsx:33-35 | a failed id stays failed whatever events follow |
| `Session.RunLightboxIgnoresErrors` | src/components/Guests.tsx:30-31 | the lightbox after any event sequence does not depend on the initial failure set |
| `Session.LightboxUnchanged` | src/components/Guests.tsx:207 | image failures and inner-panel clicks never change the lightbox |
| `Session.LightboxStaysOpen` | src/components/Guests.tsx:207 | after a card click on g, followed only by failures and inner-panel clicks, the lightbox still shows g |
| `Session.GuestsComponent.constructor` | src/components/Guests.tsx:30-31 | the component starts with an empty failure set and no selected guest |
| `Session.GuestsComponent.HandleImageError` | src/components/Guests.tsx:33-35 | the failure set becomes the old set plus the id; the selection is unchanged |
| `Session.GuestsComponent.OnCardClick` | src/components/Guests.tsx:116 | the selection becomes the clicked guest; the failure set is unchanged |
| `Session.GuestsComponent.OnBackdropClick` | src/components/Guests.tsx:191 | the selection becomes empty; the failure set is unchanged |
| `Session.GuestsComponent.OnCloseButtonClick` | src/components/Guests.tsx:273 | the selection becomes empty, also after the click reaches the backdrop; the failure set is unchanged |
| `Session.GuestsComponent.OnInnerPanelClick` | src/components/Guests.tsx:207 | the click stops at the panel and the state is unchanged |
| `Render.IfNonEmpty` | src/components/Guests.tsx:147 | a string-guarded element appears iff the string is non-empty, and it shows that string |
| `Render.AltText` | src/components/Guests.tsx:54 | alt text is never empty; it is the name when the name is non-empty and `Guest` otherwise |
| `Render.GuestImage` | src/components/Guests.tsx:38-59 | the placeholder is drawn iff the id is in the failure set; otherwise the image with the guest's path and alt text is drawn |
| `Render.Card` | src/components/Guests.tsx:133-169 | a card has the guest's image, and it has an info block iff the name or title is non-empty; the block holds exactly the non-empty ones |
| `Render.Overlay` | src/components/Guests.tsx:209-251 | the lightbox has the guest's image under the same failure rule, a heading iff the name is non-empty, a subtitle iff the title is non-empty, and always the description |
| `Render.Page` | src/components/Guests.tsx:102-176 | one card per generated record, in order; the overlay appears iff a guest is selected, and it is that guest's overlay |
| `Render.SharedFailureSet` | src/components/Guests.tsx:217-220 | the selected guest's card and the lightbox always show the same image or the same placeholder |
| `Render.PlaceholderAfterFailure` | src/components/Guests.tsx:38-59 | once id k has failed, k's card, and the lightbox when it shows k, draw the placeholder on every later page |
| `Render.InfoBlockRule` | src/components/Guests.tsx:140-169 | empty name and title give no card block and no lightbox heading or subtitle; otherwise the block holds exactly the non-empty fields |
| `Render.GeneratedRecordsView` | src/components/Guests.tsx:225-250 | with the generated records no card has an info block, every drawn image has alt `Guest`, and the lightbox shows only the image and the fixed description |
| `Render.StepConsistent` | src/components/Guests.tsx:57 | an event the page can emit keeps the failure set within the generated ids and the selection among the generated records; a failure can only be reported for an id not yet failed |
| `Render.EnabledRunConsistent` | src/components/Guests.tsx:51-57 | every sequence of emittable events keeps that consistency |
| `Render.MountIsConsistent` | src/components/Guests.tsx:30-31 | the mount state is consistent |
| `Render.GridAfterFailure25` | src/components/Guests.tsx:133-136 | after guest 25's image fails, the grid has 56 cards and only position 23, guest 25's card, shows the placeholder |
| `Render.FirstGuest` | src/components/Guests.tsx:21-23 | the first card is guest 1, with path `/Guests/guests1.png` |
| `Render.Scenario` | src/components/Guests.tsx:28-191 | mount, fail id 25, open guest 1, close by backdrop: 56 cards with only card 25 (position 23) a placeholder, a lightbox with guest 1's image and the description, and a final closed state that remembers failure 25 |
| `Render.ScenarioOnComponent` | src/components/Guests.tsx:30-191 | the same scenario, driven through the component's handler methods, gives the same grid, lightbox and final state |

## Left out

- `src/App.tsx` is not modelled. It only wires the router and providers and has no logic of its own.
- Styles, gradients, class names, the header text and the `X` icon are not modelled: they are presentation only.
- The hover handlers that change element styles (lines 117-126 and 274-281) are not modelled. They do not touch component state.
- Image fetching and `loading="lazy"` are not modelled. A failed load appears only as the `ImageError` event.
- Browser event propagation in general is not modelled. Backdrop, close-button and inner-panel clicks are separate events with the outcomes the handlers give.
- `Render.Enabled` treats the page as re-drawn after every handler. Suppose the lightbox shows a guest whose image has not failed yet, so two images of that id are on the page. Both failure callbacks could be queued before the re-draw, and a second queued report for the same id is outside the model. It would change nothing: see `ImageErrorEffect`.
- React reconciliation and `setState` batching are not modelled. Each handler is one atomic update, and the functional update in `handleImageError` is applied to the current set.
- The `className` and `onClick` parameters of `GuestImage` are not modelled. The first is styling, and neither caller passes the second.
- Re-generating `allGuests` on every render is not modelled separately. `AllGuests()` is a function, so every render sees identical records. The selected guest is held by value, which is enough because records are never mutated.
- A record id is an unbounded integer. The generated ids are 1..57, so the width of JavaScript numbers plays no part.

/** The guest records of the gallery and the generator that builds them once
    per render: one slot per number 1..length, the skipped number left empty,
    and the empty slots filtered out. */
module Guests {
  import opened Decimal

  datatype Option<T> = None | Some(value: T)

  /** One gallery entry; records are never changed after generation. */
  datatype GuestItem = GuestItem(id: int, src: string, name: string, title: string, description: string)

  /** Number of slots the generator creates. */
  const GuestCount: nat := 57
  /** The guest number whose record is left out. */
  const SkippedGuest: int := 10

  const ImagePrefix: string := "/Guests/guests"
  const ImageSuffix: string := ".png"
  const GuestDescription: string := "We are privileged to welcome this esteemed guest to our gathering."

  /** The image path of guest number `n`: the prefix, the number's decimal
      text and the suffix, so that the number can be read back from it. */
  function ImagePath(n: nat): string {
    ImagePrefix + NatToString(n) + ImageSuffix
  }

  /** The decimal text of the number is the middle of its image path. */
  lemma ImagePathNumber(n: nat)
    ensures |ImagePath(n)| == |ImagePrefix| + |NatToString(n)| + |ImageSuffix|
    ensures ImagePath(n)[|ImagePrefix|..|ImagePath(n)| - |ImageSuffix|] == NatToString(n)
  {
  }

  /** Distinct guest numbers have distinct image paths. */
  lemma ImagePathInjective(a: nat, b: nat)
    ensures ImagePath(a) == ImagePath(b) ==> a == b
  {
    if ImagePath(a) == ImagePath(b) {
      ImagePathNumber(a);
      ImagePathNumber(b);
      NatToStringInjective(a, b);
    }
  }

  /** The record built for guest number `guestNumber`. */
  function MakeGuest(guestNumber: nat): (g: GuestItem)
    ensures g.id == guestNumber && g.src == ImagePath(g.id)
    ensures g.name == "" && g.title == "" && g.description == GuestDescription
  {
    GuestItem(guestNumber, ImagePath(guestNumber), "", "", GuestDescription)
  }

  /** What the generator's callback returns for slot `index`: nothing for the
      skipped number, otherwise the record of number index + 1. */
  function Slot(index: nat, skipped: int): (r: Option<GuestItem>)
    ensures r.None? <==> index + 1 == skipped
    ensures r.Some? ==> r.value == MakeGuest(index + 1)
  {
    var guestNumber := index + 1;
    if guestNumber == skipped then None else Some(MakeGuest(guestNumber))
  }

  /** The slots as produced before filtering, one per index below `length`. */
  function Slots(length: nat, skipped: int): (slots: seq<Option<GuestItem>>)
    ensures |slots| == length
    ensures forall i :: 0 <= i < length ==> (slots[i].None? <==> i + 1 == skipped)
    ensures forall i :: 0 <= i < length && slots[i].Some? ==> slots[i].value == MakeGuest(i + 1)
  {
    seq(length, index requires 0 <= index => Slot(index, skipped))
  }

  /** Keeps the present slots, in order (a filter on truthiness: every record
      is truthy, an empty slot is not). */
  function Present(slots: seq<Option<GuestItem>>): (gs: seq<GuestItem>)
    ensures forall g :: g in gs <==> Some(g) in slots
    ensures (forall i :: 0 <= i < |slots| ==> slots[i].Some?) ==> |gs| == |slots|
    decreases |slots|
  {
    if slots == [] then []
    else
      var last := slots[|slots| - 1];
      assert slots == slots[..|slots| - 1] + [last];
      Present(slots[..|slots| - 1]) + (if last.Some? then [last.value] else [])
  }

  /** The present slots hold exactly the records of 1..length other than `skipped`. */
  lemma SlotsHold(length: nat, skipped: int)
    ensures forall g :: Some(g) in Slots(length, skipped) <==>
              exists n :: 1 <= n <= length && n != skipped && g == MakeGuest(n)
  {
    var slots := Slots(length, skipped);
    forall g | Some(g) in slots
      ensures exists n :: 1 <= n <= length && n != skipped && g == MakeGuest(n)
    {
      var i :| 0 <= i < |slots| && slots[i] == Some(g);
      assert g == MakeGuest(i + 1);
    }
    forall g | exists n :: 1 <= n <= length && n != skipped && g == MakeGuest(n)
      ensures Some(g) in slots
    {
      var n :| 1 <= n <= length && n != skipped && g == MakeGuest(n);
      assert slots[n - 1] == Some(g);
    }
  }

  /** The records for guest numbers 1..length without `skipped`. */
  function Generate(length: nat, skipped: int): (gs: seq<GuestItem>)
    ensures forall g :: g in gs <==> exists n :: 1 <= n <= length && n != skipped && g == MakeGuest(n)
  {
    SlotsHold(length, skipped);
    Present(Slots(length, skipped))
  }

  /** The gallery's records: each has an id in 1..57 other than 10, the image
      path of that id, empty name and title, and the fixed description. */
  function AllGuests(): (gs: seq<GuestItem>)
    ensures forall g :: g in gs ==> 1 <= g.id <= GuestCount && g.id != SkippedGuest
    ensures forall g :: g in gs ==> g.id >= 1 && g.src == ImagePath(g.id)
    ensures forall g :: g in gs ==> g.name == "" && g.title == "" && g.description == GuestDescription
  {
    Generate(GuestCount, SkippedGuest)
  }

  /** The id at position `i` of the generated list: positions at or past the
      skipped number are shifted up by one. */
  function IdAt(i: nat, length: nat, skipped: int): int {
    if 1 <= skipped <= length && i + 1 >= skipped then i + 2 else i + 1
  }

  /** Adding one slot appends at most that slot's record. */
  lemma GenerateStep(n: nat, skipped: int)
    ensures Generate(n + 1, skipped)
         == Generate(n, skipped) + (if n + 1 == skipped then [] else [MakeGuest(n + 1)])
  {
    var slots := Slots(n + 1, skipped);
    assert slots[..n] == Slots(n, skipped);
    assert slots[n] == Slot(n, skipped);
  }

  /** The positional description survives appending the next slot's record. */
  lemma ShapeStep(prev: seq<GuestItem>, g: seq<GuestItem>, n: nat, skipped: int)
    requires n > 0
    requires g == prev + (if n == skipped then [] else [MakeGuest(n)])
    requires |prev| == if 1 <= skipped <= n - 1 then n - 2 else n - 1
    requires forall i :: 0 <= i < |prev| ==> prev[i] == MakeGuest(IdAt(i, n - 1, skipped))
    ensures |g| == if 1 <= skipped <= n then n - 1 else n
    ensures forall i :: 0 <= i < |g| ==> g[i] == MakeGuest(IdAt(i, n, skipped))
  {
    forall i | 0 <= i < |g|
      ensures g[i] == MakeGuest(IdAt(i, n, skipped))
    {
      if i < |prev| {
        assert g[i] == prev[i];
        assert IdAt(i, n - 1, skipped) == IdAt(i, n, skipped);
      } else {
        assert IdAt(i, n, skipped) == n;
      }
    }
  }

  /** The generated list has one record per number 1..length except
      `skipped`, each record is the one built for its id, and the record at
      position i has id IdAt(i, length, skipped). */
  lemma {:induction false} GenerateShape(n: nat, skipped: int)
    ensures |Generate(n, skipped)| == if 1 <= skipped <= n then n - 1 else n
    ensures forall i :: 0 <= i < |Generate(n, skipped)| ==>
              Generate(n, skipped)[i] == MakeGuest(IdAt(i, n, skipped))
  {
    if n > 0 {
      GenerateShape(n - 1, skipped);
      GenerateStep(n - 1, skipped);
      ShapeStep(Generate(n - 1, skipped), Generate(n, skipped), n, skipped);
    }
  }

  /** The ids of a list of records. */
  function Ids(gs: seq<GuestItem>): set<int> {
    set i | 0 <= i < |gs| :: gs[i].id
  }

  /** The generated ids are exactly 1..length without `skipped`, in strictly
      ascending order, and every record is the one built for its id; so the
      skipped number never appears and no id appears twice. */
  lemma GenerateIds(n: nat, skipped: int)
    ensures |Generate(n, skipped)| == if 1 <= skipped <= n then n - 1 else n
    ensures forall k :: k in Ids(Generate(n, skipped)) <==> 1 <= k <= n && k != skipped
    ensures forall i, j :: 0 <= i < j < |Generate(n, skipped)| ==>
              Generate(n, skipped)[i].id < Generate(n, skipped)[j].id
    ensures forall i :: 0 <= i < |Generate(n, skipped)| ==>
              Generate(n, skipped)[i].id >= 1 && Generate(n, skipped)[i] == MakeGuest(Generate(n, skipped)[i].id)
  {
    GenerateShape(n, skipped);
    var g := Generate(n, skipped);
    forall k | 1 <= k <= n && k != skipped
      ensures k in Ids(g)
    {
      var i := if 1 <= skipped <= n && k > skipped then k - 2 else k - 1;
      assert g[i].id == k;
    }
  }

  /** The gallery has 56 records, with ids 1..9 and 11..57 ascending; the
      record at position i has id i + 1 below position 9 and i + 2 from there. */
  lemma AllGuestsShape()
    ensures |AllGuests()| == 56
    ensures forall k :: k in Ids(AllGuests()) <==> 1 <= k <= 57 && k != 10
    ensures forall i, j :: 0 <= i < j < |AllGuests()| ==> AllGuests()[i].id < AllGuests()[j].id
    ensures forall i :: 0 <= i < |AllGuests()| ==>
              AllGuests()[i].id == (if i < 9 then i + 1 else i + 2)
  {
    GenerateIds(GuestCount, SkippedGuest);
    GenerateShape(GuestCount, SkippedGuest);
  }

  /** Every record has the image path of its id, empty name and title and the
      fixed description; and distinct records have distinct image paths. */
  lemma AllGuestsFields()
    ensures forall i :: 0 <= i < |AllGuests()| ==>
              AllGuests()[i].id >= 1 && AllGuests()[i].src == ImagePath(AllGuests()[i].id)
    ensures forall i :: 0 <= i < |AllGuests()| ==>
              AllGuests()[i].name == "" && AllGuests()[i].title == ""
              && AllGuests()[i].description == GuestDescription
    ensures forall i, j :: 0 <= i < |AllGuests()| && 0 <= j < |AllGuests()| && i != j ==>
              AllGuests()[i].src != AllGuests()[j].src
  {
    var g := AllGuests();
    GenerateIds(GuestCount, SkippedGuest);
    forall i, j | 0 <= i < |g| && 0 <= j < |g| && i != j
      ensures g[i].src != g[j].src
    {
      ImagePathInjective(g[i].id, g[j].id);
    }
  }

  /** Two records of the gallery share an image path exactly when they
      share an id, that is, when they are the same record. */
  lemma SrcDependsOnIdOnly(i: nat, j: nat)
    requires i < |AllGuests()| && j < |AllGuests()|
    ensures AllGuests()[i].src == AllGuests()[j].src <==> AllGuests()[i].id == AllGuests()[j].id
    ensures AllGuests()[i].id == AllGuests()[j].id <==> i == j
  {
    AllGuestsShape();
    AllGuestsFields();
  }
}

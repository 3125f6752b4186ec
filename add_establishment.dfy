/**
 * The owner's "add establishment" screen: a form whose type and price tier
 * are picked from fixed choice lists, and a save that inserts one
 * establishment owned by the signed-in user, with default opening hours.
 */
module AddEstablishment {

  import opened Wrappers
  import opened Types
  import opened Text
  import opened Backend
  import EstablishmentDetails

  // ------------------------------------------------------------ choice lists

  /** One button of a picker: the stored value and its caption. */
  datatype Choice = Choice(value: string, caption: string)

  const ESTABLISHMENT_TYPES: seq<Choice> := [
    Choice("hairdresser", "Hairdresser"),
    Choice("cosmetologist", "Cosmetologist"),
    Choice("nail_salon", "Nail Salon"),
    Choice("spa", "Spa"),
    Choice("barbershop", "Barbershop")]

  const PRICE_RANGES: seq<Choice> := [
    Choice("$", "$ - Budget"),
    Choice("$$", "$$ - Moderate"),
    Choice("$$$", "$$$ - Expensive"),
    Choice("$$$$", "$$$$ - Very Expensive")]

  function Values(choices: seq<Choice>): (r: seq<string>)
    ensures |r| == |choices|
    ensures forall i :: 0 <= i < |choices| ==> r[i] == choices[i].value
  {
    seq(|choices|, i requires 0 <= i < |choices| => choices[i].value)
  }

  /** The type picker offers every establishment type exactly once, and nothing else. */
  lemma TypeChoicesAreTheTypes()
    ensures forall i :: 0 <= i < |ESTABLISHMENT_TYPES| ==> ParseEstablishmentType(ESTABLISHMENT_TYPES[i].value).Some?
    ensures forall t :: EstablishmentTypeText(t) in Values(ESTABLISHMENT_TYPES)
    ensures forall i, j :: 0 <= i < j < |ESTABLISHMENT_TYPES| ==> ESTABLISHMENT_TYPES[i].value != ESTABLISHMENT_TYPES[j].value
  {
    var vs := Values(ESTABLISHMENT_TYPES);
    assert vs == ["hairdresser", "cosmetologist", "nail_salon", "spa", "barbershop"];
  }

  /** The price picker offers every price tier exactly once, and nothing else. */
  lemma PriceChoicesAreTheTiers()
    ensures forall i :: 0 <= i < |PRICE_RANGES| ==> ParsePriceRange(PRICE_RANGES[i].value).Some?
    ensures forall p :: PriceRangeText(p) in Values(PRICE_RANGES)
    ensures forall i, j :: 0 <= i < j < |PRICE_RANGES| ==> PRICE_RANGES[i].value != PRICE_RANGES[j].value
  {
    var vs := Values(PRICE_RANGES);
    assert vs == ["$", "$$", "$$$", "$$$$"];
  }

  // ------------------------------------------------------------ the stored row

  const WEEKDAY_HOURS := Hours("09:00", "18:00")
  const SATURDAY_HOURS := Hours("10:00", "16:00")

  /** The opening hours every new establishment starts with. */
  const DEFAULT_OPENING_HOURS: OpeningHours := map[
    "monday" := Some(WEEKDAY_HOURS),
    "tuesday" := Some(WEEKDAY_HOURS),
    "wednesday" := Some(WEEKDAY_HOURS),
    "thursday" := Some(WEEKDAY_HOURS),
    "friday" := Some(WEEKDAY_HOURS),
    "saturday" := Some(SATURDAY_HOURS),
    "sunday" := None]

  /**
   * The default week has an entry for each of the seven day keys and no
   * other; Monday to Friday open 09:00 to 18:00, Saturday 10:00 to 16:00,
   * and the detail screen shows Sunday as "Closed".
   */
  lemma DefaultHoursCoverTheWeek()
    ensures forall d :: d in DEFAULT_OPENING_HOURS <==> EstablishmentDetails.IsDayKey(d)
    ensures forall d :: d in DEFAULT_OPENING_HOURS && d != "saturday" && d != "sunday" ==>
              DEFAULT_OPENING_HOURS[d] == Some(Hours("09:00", "18:00"))
    ensures DEFAULT_OPENING_HOURS["saturday"] == Some(Hours("10:00", "16:00"))
    ensures EstablishmentDetails.HoursRowFor("sunday", DEFAULT_OPENING_HOURS["sunday"]).timeText == "Closed"
    ensures forall d :: d in DEFAULT_OPENING_HOURS && d != "sunday" ==>
              !EstablishmentDetails.HoursRowFor(d, DEFAULT_OPENING_HOURS[d]).closedStyle
  {
  }

  /** The `establishments` row the screen inserts. */
  datatype EstablishmentRow = EstablishmentRow(
    ownerId: string,
    name: string,
    kind: string,
    address: string,
    phone: Option<string>,
    description: Option<string>,
    priceRange: string,
    imageUrl: Option<string>,
    openingHours: OpeningHours)

  // ------------------------------------------------------------ the form

  datatype EstablishmentForm = EstablishmentForm(
    name: string, kind: string, address: string, phone: string,
    description: string, priceRange: string, imageUrl: string)

  /** A fresh form: a hairdresser in the `$$` tier, all text empty. */
  const INITIAL_FORM := EstablishmentForm("", "hairdresser", "", "", "", "$$", "")

  /** The free-text inputs of the form; the photo picker's result lands in `ImageUrl`. */
  datatype TextField = Name | Address | Phone | Description | ImageUrl

  /** Saving needs a name and an address that are not blank once trimmed. */
  predicate FormIsComplete(form: EstablishmentForm) {
    !IsBlank(form.name) && !IsBlank(form.address)
  }

  /**
   * The row a save inserts: name and address trimmed, blank optional text
   * stored as null, the image URL nulled only when empty, and the default
   * opening hours.
   */
  function NewRow(ownerId: string, form: EstablishmentForm): (row: EstablishmentRow)
    ensures row.ownerId == ownerId && row.openingHours == DEFAULT_OPENING_HOURS
    ensures row.kind == form.kind && row.priceRange == form.priceRange
    ensures row.name == Trim(form.name) && row.address == Trim(form.address)
    ensures FormIsComplete(form) ==> row.name != [] && row.address != []
    ensures row.phone.None? <==> IsBlank(form.phone)
    ensures row.phone.Some? ==> row.phone.value == Trim(form.phone)
    ensures row.description.None? <==> IsBlank(form.description)
    ensures row.description.Some? ==> row.description.value == Trim(form.description)
    ensures row.imageUrl.None? <==> form.imageUrl == ""
    ensures row.imageUrl.Some? ==> row.imageUrl.value == form.imageUrl
  {
    EstablishmentRow(ownerId, Trim(form.name), form.kind, Trim(form.address), TrimmedOrNull(form.phone),
                     TrimmedOrNull(form.description), form.priceRange, OrNull(form.imageUrl),
                     DEFAULT_OPENING_HOURS)
  }

  /**
   * In the inserted row, phone and description are null exactly when the
   * input held only whitespace, and the required name and address of a
   * complete form neither start nor end with whitespace.
   */
  lemma NewRowNullsBlank(ownerId: string, form: EstablishmentForm)
    ensures NewRow(ownerId, form).phone.None? <==> AllWhitespace(form.phone)
    ensures NewRow(ownerId, form).description.None? <==> AllWhitespace(form.description)
    ensures FormIsComplete(form) ==> TrimmedEnds(NewRow(ownerId, form).name)
    ensures FormIsComplete(form) ==> TrimmedEnds(NewRow(ownerId, form).address)
  {
    BlankIffAllWhitespace(form.phone);
    BlankIffAllWhitespace(form.description);
    TrimLeavesNoOuterWhitespace(form.name);
    TrimLeavesNoOuterWhitespace(form.address);
  }

  datatype AddOutcome =
    | Incomplete   // "Please fill in all required fields"
    | MustLogIn
    | CreateFailed // the insert returned an error
    | Created(row: EstablishmentRow)

  class AddEstablishmentScreen {
    var form: EstablishmentForm
    var loading: bool

    /** The type and the price tier always hold a value the pickers offer. */
    ghost predicate Valid()
      reads this
    {
      ParseEstablishmentType(form.kind).Some? && ParsePriceRange(form.priceRange).Some?
    }

    constructor ()
      ensures Valid() && form == INITIAL_FORM && !loading
    {
      form := INITIAL_FORM;
      loading := false;
    }

    /** One of the text inputs changes; nothing else does. */
    method UpdateText(field: TextField, text: string)
      requires Valid()
      modifies this
      ensures Valid() && loading == old(loading)
      ensures form == match field
                      case Name => old(form).(name := text)
                      case Address => old(form).(address := text)
                      case Phone => old(form).(phone := text)
                      case Description => old(form).(description := text)
                      case ImageUrl => old(form).(imageUrl := text)
    {
      match field
      case Name => form := form.(name := text);
      case Address => form := form.(address := text);
      case Phone => form := form.(phone := text);
      case Description => form := form.(description := text);
      case ImageUrl => form := form.(imageUrl := text);
    }

    /** A type button stores its value. */
    method ChooseType(i: nat)
      requires Valid() && i < |ESTABLISHMENT_TYPES|
      modifies this
      ensures Valid() && loading == old(loading)
      ensures form == old(form).(kind := ESTABLISHMENT_TYPES[i].value)
    {
      TypeChoicesAreTheTypes();
      form := form.(kind := ESTABLISHMENT_TYPES[i].value);
    }

    /** A price button stores its value. */
    method ChoosePriceRange(i: nat)
      requires Valid() && i < |PRICE_RANGES|
      modifies this
      ensures Valid() && loading == old(loading)
      ensures form == old(form).(priceRange := PRICE_RANGES[i].value)
    {
      PriceChoicesAreTheTiers();
      form := form.(priceRange := PRICE_RANGES[i].value);
    }

    /**
     * `handleSave`: refuses an incomplete form without touching the spinner;
     * otherwise shows the spinner, needs a signed-in user, inserts the row,
     * and hides the spinner again whatever happened.
     */
    method HandleSave(table: Table<EstablishmentRow>, user: Option<string>, insertFails: bool)
      returns (outcome: AddOutcome)
      requires Valid()
      modifies this, table
      ensures Valid() && form == old(form)
      ensures !FormIsComplete(form) ==>
                outcome == Incomplete && loading == old(loading) && table.rows == old(table.rows)
      ensures FormIsComplete(form) ==> !loading
      ensures FormIsComplete(form) && user.None? ==> outcome == MustLogIn && table.rows == old(table.rows)
      ensures FormIsComplete(form) && user.Some? && insertFails ==>
                outcome == CreateFailed && table.rows == old(table.rows)
      ensures FormIsComplete(form) && user.Some? && !insertFails ==>
                outcome == Created(NewRow(user.value, form)) && table.rows == old(table.rows) + [NewRow(user.value, form)]
      ensures outcome.Created? ==>
                && ParseEstablishmentType(outcome.row.kind).Some? && ParsePriceRange(outcome.row.priceRange).Some?
                && outcome.row.name != [] && outcome.row.address != []
    {
      if !FormIsComplete(form) {
        return Incomplete;
      }
      loading := true;
      if user.None? {
        outcome := MustLogIn;
      } else {
        var row := NewRow(user.value, form);
        table.Insert(row, insertFails);
        outcome := if insertFails then CreateFailed else Created(row);
      }
      loading := false;
    }
  }
}

/** The ticket-price settings: a cinema is chosen from the loaded list, its three
    prices are loaded into the inputs, and submitting sends the chosen cinema with
    the three prices from the inputs. */
module Settings {
  import opened Wrappers
  import opened Records
  import opened Lists
  import Api

  datatype Tier = Executive | Premier | Classic

  /** The cinema with its three prices replaced and every other field kept. */
  function WithPrices(c: Cinema, executive: int, premier: int, classic: int): (r: Cinema)
    ensures r.executivePrice == executive && r.premierPrice == premier && r.classicPrice == classic
    ensures r.(executivePrice := c.executivePrice, premierPrice := c.premierPrice,
               classicPrice := c.classicPrice) == c
  {
    c.(executivePrice := executive, premierPrice := premier, classicPrice := classic)
  }

  /** Repricing a cinema with its own prices changes nothing. */
  lemma WithOwnPrices(c: Cinema)
    ensures WithPrices(c, c.executivePrice, c.premierPrice, c.classicPrice) == c
  {
  }

  /** `cinemas.find(c => c._id === id)`. */
  function FindCinema(cinemas: seq<Cinema>, id: string): (r: Option<Cinema>)
    ensures r.None? <==> forall i :: 0 <= i < |cinemas| ==> cinemas[i].id != id
    ensures r.Some? ==> exists i :: 0 <= i < |cinemas| && cinemas[i] == r.value && r.value.id == id &&
                                    forall j :: 0 <= j < i ==> cinemas[j].id != id
  {
    Find(cinemas, (c: Cinema) => c.id == id)
  }

  /** A stored cinema with an id is kept as sent when only its prices change. */
  lemma PriceUpdateStored(c: Cinema, executive: int, premier: int, classic: int, upload: Result<string>)
    requires c.image.Url? && c.id != ""
    ensures Api.EditCinema(WithPrices(c, executive, premier, classic), upload) ==
              Ok(WithPrices(c, executive, premier, classic))
  {
  }

  class PriceSettings {
    var selectedCinemaId: string
    var executivePrice: int
    var premierPrice: int
    var classicPrice: int

    /** Nothing is selected and every price is zero. */
    constructor()
      ensures selectedCinemaId == "" && executivePrice == 0 && premierPrice == 0 && classicPrice == 0
    {
      selectedCinemaId := "";
      executivePrice := 0;
      premierPrice := 0;
      classicPrice := 0;
    }

    /** The price inputs and the submit button are disabled while no cinema is
        selected. */
    predicate Disabled()
      reads this
    {
      selectedCinemaId == ""
    }

    /** The effect on the selection and the loaded list: with a list and a selection,
        a matching cinema's prices are loaded; otherwise the prices stay. */
    method LoadPrices(cinemas: Option<seq<Cinema>>)
      modifies this
      ensures selectedCinemaId == old(selectedCinemaId)
      ensures var found := if cinemas.Some? && selectedCinemaId != "" then FindCinema(cinemas.value, selectedCinemaId)
                           else None;
              if found.Some? then
                executivePrice == found.value.executivePrice && premierPrice == found.value.premierPrice &&
                classicPrice == found.value.classicPrice
              else
                executivePrice == old(executivePrice) && premierPrice == old(premierPrice) &&
                classicPrice == old(classicPrice)
    {
      if cinemas.Some? && selectedCinemaId != "" {
        var found := FindCinema(cinemas.value, selectedCinemaId);
        if found.Some? {
          executivePrice := found.value.executivePrice;
          premierPrice := found.value.premierPrice;
          classicPrice := found.value.classicPrice;
        }
      }
    }

    /** Choosing a cinema in the select; a new choice runs the effect. */
    method Select(id: string, cinemas: Option<seq<Cinema>>)
      modifies this
      ensures selectedCinemaId == id
      ensures var found := if id != old(selectedCinemaId) && cinemas.Some? && id != "" then FindCinema(cinemas.value, id)
                           else None;
              if found.Some? then
                executivePrice == found.value.executivePrice && premierPrice == found.value.premierPrice &&
                classicPrice == found.value.classicPrice
              else
                executivePrice == old(executivePrice) && premierPrice == old(premierPrice) &&
                classicPrice == old(classicPrice)
    {
      if id != selectedCinemaId {
        selectedCinemaId := id;
        LoadPrices(cinemas);
      }
    }

    /** Typing a price: a disabled input does not react. */
    method SetPrice(tier: Tier, price: int)
      modifies this
      ensures selectedCinemaId == old(selectedCinemaId)
      ensures old(Disabled()) ==>
                executivePrice == old(executivePrice) && premierPrice == old(premierPrice) &&
                classicPrice == old(classicPrice)
      ensures !old(Disabled()) ==>
                executivePrice == (if tier == Executive then price else old(executivePrice)) &&
                premierPrice == (if tier == Premier then price else old(premierPrice)) &&
                classicPrice == (if tier == Classic then price else old(classicPrice))
    {
      if selectedCinemaId != "" {
        match tier
        case Executive => executivePrice := price;
        case Premier => premierPrice := price;
        case Classic => classicPrice := price;
      }
    }

    /** `handleSubmit` over the loaded list: nothing is sent when no cinema has the
        selected id; otherwise the first such cinema with the three input prices. */
    method Submit(cinemas: seq<Cinema>) returns (update: Option<Cinema>)
      ensures update.None? <==> forall i :: 0 <= i < |cinemas| ==> cinemas[i].id != selectedCinemaId
      ensures update.Some? ==>
                exists i :: 0 <= i < |cinemas| && cinemas[i].id == selectedCinemaId &&
                            (forall j :: 0 <= j < i ==> cinemas[j].id != selectedCinemaId) &&
                            update.value == WithPrices(cinemas[i], executivePrice, premierPrice, classicPrice)
    {
      var selected := FindCinema(cinemas, selectedCinemaId);
      if selected.None? {
        return None;
      }
      update := Some(WithPrices(selected.value, executivePrice, premierPrice, classicPrice));
    }
  }

  /** Choosing a cinema and submitting without touching the prices sends the cinema
      back unchanged, when ids are unique. */
  method SelectThenSubmit(cinemas: seq<Cinema>, c: Cinema) returns (update: Option<Cinema>)
    requires c in cinemas && c.id != ""
    requires forall i :: 0 <= i < |cinemas| && cinemas[i].id == c.id ==> cinemas[i] == c
    ensures update == Some(c)
  {
    var settings := new PriceSettings();
    settings.Select(c.id, Some(cinemas));
    update := settings.Submit(cinemas);
  }
}

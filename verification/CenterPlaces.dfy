/**
 The places of a center, read out of its custom fields, and the filters on them: a later field
 overrides an earlier one, and a field counts for the first kind of place that its label or name says.
 */
module CenterPlaces {
  import opened JsValues
  import opened Lists

  datatype Level = STATE | DISTRICT | BLOCK | VILLAGE

  /** The first selected value of a field: a text, or an option of a list with what it has. */
  datatype Selected = Text(text: string) | Choice(id: Option<string>, value: Option<string>, caption: Option<string>)

  /** A field with its label and its name, both in lower case. */
  datatype CustomField = CustomField(caption: Option<string>, name: Option<string>, selected: Option<Selected>)

  datatype Place = Place(id: Option<string>, name: Option<string>)

  const Unknown := Place(None, None)

  datatype Places = Places(state: Place, district: Place, block: Place, village: Place)
  {
    function At(level: Level): Place {
      match level
      case STATE => state
      case DISTRICT => district
      case BLOCK => block
      case VILLAGE => village
    }
  }

  function Says(field: CustomField, word: string): bool {
    field.caption == Some(word) || field.name == Some(word)
  }

  function LevelOf(field: CustomField): Option<Level> {
    if Says(field, "state") then Some(STATE)
    else if Says(field, "district") then Some(DISTRICT)
    else if Says(field, "block") then Some(BLOCK)
    else if Says(field, "village") then Some(VILLAGE)
    else None
  }

  /** `a || b || null` on strings: the empty one counts as none. */
  function Either(a: Option<string>, b: Option<string>): Option<string> {
    if a.Some? && a.value != "" then a else if b.Some? && b.value != "" then b else None
  }

  function Picked(choice: Selected): Place
    requires choice.Choice?
  {
    Place(Either(choice.id, choice.value), Either(choice.caption, choice.value))
  }

  /** The field names a place of the level. */
  predicate Tells(field: CustomField, level: Level) {
    LevelOf(field) == Some(level) && field.selected.Some? && field.selected.value.Choice?
  }

  function Telling(level: Level): CustomField -> bool {
    (field: CustomField) => Tells(field, level)
  }

  /** The place is what the last field that names one says, and unknown if none does. */
  function LastPlace(fields: seq<CustomField>, level: Level): Place {
    match LastWhere(fields, Telling(level))
    case Some(i) => Picked(fields[i].selected.value)
    case None => Unknown
  }

  function PlacesOf(fields: seq<CustomField>): Places {
    Places(LastPlace(fields, STATE), LastPlace(fields, DISTRICT), LastPlace(fields, BLOCK), LastPlace(fields, VILLAGE))
  }

  /** The word for a level; a field counts for the first level whose word is its label or its name. */
  const WORDS := ["state", "district", "block", "village"]

  predicate HasWord(field: CustomField, k: nat)
    requires k < |WORDS|
  {
    field.caption == Some(WORDS[k]) || field.name == Some(WORDS[k])
  }

  /** The field tells a place of the `k`-th level: it has that word and none before it, and an option is selected. */
  predicate TellsOf(field: CustomField, k: nat)
    requires k < |WORDS|
  {
    && HasWord(field, k) && (forall j :: 0 <= j < k ==> !HasWord(field, j))
    && field.selected.Some? && field.selected.value.Choice?
  }

  /** The first of two texts that is there and not empty. */
  predicate IsFirstText(a: Option<string>, b: Option<string>, r: Option<string>) {
    if !IsBlank(a) then r == a else if !IsBlank(b) then r == b else r == None
  }

  predicate IsBlank(a: Option<string>) {
    a.Some? ==> |a.value| == 0
  }

  /** The `i`-th field is the last to tell the place: by its id or value, and by its label or value. */
  predicate IsToldBy(fields: seq<CustomField>, k: nat, i: nat, place: Place)
    requires k < |WORDS| && i < |fields|
  {
    && TellsOf(fields[i], k) && (forall j :: i < j < |fields| ==> !TellsOf(fields[j], k))
    && IsFirstText(fields[i].selected.value.id, fields[i].selected.value.value, place.id)
    && IsFirstText(fields[i].selected.value.caption, fields[i].selected.value.value, place.name)
  }

  /** The place of the `k`-th level is told by the last field that tells one: its id or value, its label or value. */
  lemma PlaceIsTold(fields: seq<CustomField>, k: nat)
    requires k < |WORDS|
    ensures var place := PlacesOf(fields).At([STATE, DISTRICT, BLOCK, VILLAGE][k]);
      || (place == Place(None, None) && forall i :: 0 <= i < |fields| ==> !TellsOf(fields[i], k))
      || exists i :: 0 <= i < |fields| && IsToldBy(fields, k, i, place)
  {
    var level := [STATE, DISTRICT, BLOCK, VILLAGE][k];
    forall field ensures TellsOf(field, k) <==> Telling(level)(field) {
      WordOfLevel(field, k);
    }
    assert PlacesOf(fields).At(level) == LastPlace(fields, level);
    var last := LastWhere(fields, Telling(level));
    if last.Some? {
      var i := last.value;
      assert TellsOf(fields[i], k);
      forall j | i < j < |fields| ensures !TellsOf(fields[j], k) {
        assert !Telling(level)(fields[j]);
      }
      assert IsToldBy(fields, k, i, PlacesOf(fields).At(level));
    } else {
      forall i | 0 <= i < |fields| ensures !TellsOf(fields[i], k) {
        assert !Telling(level)(fields[i]);
      }
    }
  }

  lemma WordOfLevel(field: CustomField, k: nat)
    requires k < |WORDS|
    ensures TellsOf(field, k) <==> Tells(field, [STATE, DISTRICT, BLOCK, VILLAGE][k])
  {
    assert forall j :: 0 <= j < |WORDS| ==> (HasWord(field, j) <==> Says(field, WORDS[j]));
    assert WORDS[0] == "state" && WORDS[1] == "district" && WORDS[2] == "block" && WORDS[3] == "village";
  }

  lemma OneMoreField(fields: seq<CustomField>, i: nat, level: Level)
    requires i < |fields|
    ensures LastPlace(fields[..i + 1], level)
         == if Tells(fields[i], level) then Picked(fields[i].selected.value) else LastPlace(fields[..i], level)
  {
    assert fields[..i + 1][..i] == fields[..i];
  }

  method ExtractPlaces(customFields: seq<CustomField>) returns (geoData: Places)
    ensures geoData == PlacesOf(customFields)
  {
    geoData := PlacesOf([]);
    for i := 0 to |customFields|
      invariant geoData == PlacesOf(customFields[..i])
    {
      var field := customFields[i];
      forall level {
        OneMoreField(customFields, i, level);
      }
      if field.selected.Some? && field.selected.value.Choice? {
        var place := Picked(field.selected.value);
        if Says(field, "state") {
          geoData := geoData.(state := place);
        } else if Says(field, "district") {
          geoData := geoData.(district := place);
        } else if Says(field, "block") {
          geoData := geoData.(block := place);
        } else if Says(field, "village") {
          geoData := geoData.(village := place);
        }
      }
    }
    assert customFields[..|customFields|] == customFields;
  }

  /** The place filters of a request, and the centers its custom-field search found, if it has one that found any. */
  datatype Filters = Filters(
    state: seq<string>, district: seq<string>, block: seq<string>, village: seq<string>, matches: Option<seq<string>>)
  {
    function At(level: Level): seq<string> {
      match level
      case STATE => state
      case DISTRICT => district
      case BLOCK => block
      case VILLAGE => village
    }
  }

  /** Every list that is not empty holds the center's place of its level, and the search found the center. */
  predicate Passes(filters: Filters, centerId: string, places: Places) {
    && (forall level: Level ::
          filters.At(level) == [] || (places.At(level).id.Some? && places.At(level).id.value in filters.At(level)))
    && (filters.matches.Some? ==> centerId in filters.matches.value)
  }

  method ShouldInclude(filters: Filters, centerId: string, geoData: Places) returns (shouldInclude: bool)
    ensures shouldInclude <==> Passes(filters, centerId, geoData)
  {
    shouldInclude := true;
    assert filters.state == filters.At(STATE) && filters.district == filters.At(DISTRICT);
    assert filters.block == filters.At(BLOCK) && filters.village == filters.At(VILLAGE);
    if |filters.state| > 0 && (geoData.state.id == None || geoData.state.id.value !in filters.state) {
      shouldInclude := false;
    }
    if shouldInclude && |filters.district| > 0
      && (geoData.district.id == None || geoData.district.id.value !in filters.district) {
      shouldInclude := false;
    }
    if shouldInclude && |filters.block| > 0
      && (geoData.block.id == None || geoData.block.id.value !in filters.block) {
      shouldInclude := false;
    }
    if shouldInclude && |filters.village| > 0
      && (geoData.village.id == None || geoData.village.id.value !in filters.village) {
      shouldInclude := false;
    }
    if shouldInclude && filters.matches.Some? && centerId !in filters.matches.value {
      shouldInclude := false;
    }
  }
}

/**
 * `getDetails`: the fields read from one detail page. The district comes from
 * the comma-separated location text, the id from the first run of six or more
 * digits, four dedicated fields from the property table by exact label match
 * (every row is also recorded in `props`), and the photo list from the gallery.
 */
module Details {
  import opened Wrappers
  import opened Text
  import opened Site

  /** The four property-table labels with a dedicated field. */
  const FLOOR_LABEL: string := "Этаж"
  const MAX_FLOOR_LABEL: string := "Этажность"
  const ROOMS_LABEL: string := "Количество комнат"
  const AREA_LABEL: string := "Общая площадь"

  /** The shortest digit run that counts as an id. */
  const ID_DIGITS: nat := 6

  /** One `{key: th, value: td}` entry of `props`. */
  datatype Prop = Prop(key: string, value: string)

  /** The object `getDetails` resolves to. */
  datatype Detail = Detail(
    id: string, date: DateValue, title: string, district: string,
    area: string, rooms: string, floor: string, maxFloor: string,
    description: string, seller: string, photos: seq<Option<string>>, props: seq<Prop>)

  /** `position[2]` of the trimmed location text split on commas, trimmed, when it is present and non-empty; else "". */
  function District(strongText: string): string
  {
    var position := Split(Trim(strongText), ',');
    if |position| > 2 && position[2] != "" then Trim(position[2]) else ""
  }

  /**
   * When the trimmed location text is `a,b,seg` followed by nothing or by a
   * further comma, the district is seg trimmed (an empty seg gives "").
   */
  lemma DistrictThirdSegment(strongText: string, a: string, b: string, seg: string, rest: string)
    requires Trim(strongText) == a + [','] + b + [','] + seg + rest
    requires ',' !in a && ',' !in b && ',' !in seg
    requires rest == [] || rest[0] == ','
    ensures District(strongText) == Trim(seg)
  {
    var t := Trim(strongText);
    assert t == a + [','] + (b + [','] + seg + rest);
    SplitCons(a, ',', b + [','] + seg + rest);
    assert b + [','] + seg + rest == b + [','] + (seg + rest);
    SplitCons(b, ',', seg + rest);
    if rest == [] {
      assert seg + rest == seg;
      SplitNoSeparator(seg, ',');
    } else {
      assert seg + rest == seg + [','] + rest[1..];
      SplitCons(seg, ',', rest[1..]);
    }
    if seg == [] {
      assert Trim(seg) == [];
    }
  }

  /** With fewer than two commas there is no third segment, and the district stays "". */
  lemma DistrictMissing(strongText: string)
    requires Count(Trim(strongText), ',') < 2
    ensures District(strongText) == ""
  {
  }

  /**
   * id is the whole run of digits at index i of t: no six digits start before
   * i, and no digit comes just before or just after it.
   */
  predicate LeftmostRunAt(t: string, i: nat, id: string) {
    && i + |id| <= |t| && t[i..i + |id|] == id
    && (i == 0 || !IsDigit(t[i - 1]))
    && (i + |id| == |t| || !IsDigit(t[i + |id|]))
    && forall j :: 0 <= j < i ==> !DigitsAt(t, j, ID_DIGITS)
  }

  /**
   * `idParts = text.trim().match(/\d{6,}/)`: the match, or None when there is
   * none, in which case `idParts[0]` throws. A match has at least six
   * characters, so `|| ''` never supplies the empty string.
   */
  function IdOf(smallText: string): (id: Option<string>)
    ensures id.None? <==> forall j :: 0 <= j ==> !DigitsAt(Trim(smallText), j, ID_DIGITS)
    ensures id.Some? ==> |id.value| >= ID_DIGITS && forall k :: 0 <= k < |id.value| ==> IsDigit(id.value[k])
    ensures id.Some? ==> exists i :: LeftmostRunAt(Trim(smallText), i, id.value)
  {
    var t := Trim(smallText);
    match MatchDigits(t, ID_DIGITS)
    case None => None
    case Some(span) =>
      assert LeftmostRunAt(t, span.start, t[span.start..span.end]);
      Some(t[span.start..span.end])
  }

  /** The accumulated state of the property-table loop. */
  datatype Table = Table(props: seq<Prop>, floor: string, maxFloor: string, rooms: string, area: string)

  /** One pass of the loop body on a trimmed label and value. */
  function StepRow(t: Table, th: string, td: string): Table
  {
    var t' :=
      if th == FLOOR_LABEL then t.(floor := td)
      else if th == MAX_FLOOR_LABEL then t.(maxFloor := td)
      else if th == ROOMS_LABEL then t.(rooms := td)
      else if th == AREA_LABEL then t.(area := td)
      else t;
    t'.(props := t.props + [Prop(th, td)])
  }

  /** The loop over the rows, in document order, starting from empty fields. */
  function FoldRows(rows: seq<TableRow>): Table
  {
    if rows == [] then Table([], "", "", "", "")
    else
      var r := rows[|rows| - 1];
      StepRow(FoldRows(rows[..|rows| - 1]), Trim(r.th), Trim(r.td))
  }

  /** The dedicated field a label selects. */
  function Field(t: Table, key: string): string
    requires key in {FLOOR_LABEL, MAX_FLOOR_LABEL, ROOMS_LABEL, AREA_LABEL}
  {
    if key == FLOOR_LABEL then t.floor
    else if key == MAX_FLOOR_LABEL then t.maxFloor
    else if key == ROOMS_LABEL then t.rooms
    else t.area
  }

  /** `props` has one entry per row, in row order, whatever the label: the trimmed label and value. */
  lemma {:induction false} FoldRowsProps(rows: seq<TableRow>)
    ensures |FoldRows(rows).props| == |rows|
    ensures forall i :: 0 <= i < |rows| ==>
      FoldRows(rows).props[i] == Prop(Trim(rows[i].th), Trim(rows[i].td))
  {
    if rows != [] {
      var init := rows[..|rows| - 1];
      FoldRowsProps(init);
      assert forall i :: 0 <= i < |init| ==> init[i] == rows[i];
    }
  }

  /** The labels differ, so a row sets the field of its own label and leaves the other three alone. */
  lemma StepRowField(t: Table, th: string, td: string, key: string)
    requires key in {FLOOR_LABEL, MAX_FLOOR_LABEL, ROOMS_LABEL, AREA_LABEL}
    ensures Field(StepRow(t, th, td), key) == if th == key then td else Field(t, key)
  {
  }

  /**
   * A dedicated field holds the value of the LAST row whose trimmed label is
   * exactly its label, and stays "" when no row's trimmed label is.
   */
  lemma {:induction false} FoldRowsField(rows: seq<TableRow>, key: string)
    requires key in {FLOOR_LABEL, MAX_FLOOR_LABEL, ROOMS_LABEL, AREA_LABEL}
    ensures (forall i :: 0 <= i < |rows| ==> Trim(rows[i].th) != key) ==> Field(FoldRows(rows), key) == ""
    ensures forall i :: LastWithLabel(rows, key, i) ==> Field(FoldRows(rows), key) == Trim(rows[i].td)
  {
    if rows != [] {
      var n := |rows| - 1;
      var init := rows[..n];
      FoldRowsField(init, key);
      assert forall i :: 0 <= i < n ==> init[i] == rows[i];
      StepRowField(FoldRows(init), Trim(rows[n].th), Trim(rows[n].td), key);
      forall i | LastWithLabel(rows, key, i)
        ensures Field(FoldRows(rows), key) == Trim(rows[i].td)
      {
        if i < n {
          assert LastWithLabel(init, key, i);
        }
      }
    }
  }

  /** Row i is the last row whose trimmed label is exactly key. */
  predicate LastWithLabel(rows: seq<TableRow>, key: string, i: int) {
    0 <= i < |rows| && Trim(rows[i].th) == key
    && forall j :: i < j < |rows| ==> Trim(rows[j].th) != key
  }

  /** The `src` of each gallery image, in order. */
  function Sources(images: seq<Image>): seq<Option<string>>
  {
    if images == [] then [] else Sources(images[..|images| - 1]) + [images[|images| - 1].src]
  }

  /** `photos` lists every image's `src` in order, duplicates kept: one entry per image. */
  lemma {:induction false} SourcesSpec(images: seq<Image>)
    ensures |Sources(images)| == |images|
    ensures forall i :: 0 <= i < |images| ==> Sources(images)[i] == images[i].src
  {
    if images != [] {
      var init := images[..|images| - 1];
      SourcesSpec(init);
      assert forall i :: 0 <= i < |init| ==> init[i] == images[i];
    }
  }

  /**
   * What `getDetails(url)` resolves to. It rejects when the page cannot be
   * fetched or when either regex finds nothing (the date is matched first);
   * otherwise every field is read from the page.
   */
  function DetailsOf(web: Web, url: Url): (r: Result<Detail, Error>)
    ensures r.Success? <==>
      url in web.details && HasDateMatch(Trim(web.details[url].emText))
      && IdOf(web.details[url].smallText).Some?
    ensures r.Success? ==>
      && |r.value.props| == |web.details[url].rows|
      && |r.value.photos| == |web.details[url].images|
      && |r.value.id| >= ID_DIGITS
  {
    if url !in web.details then Failure(FetchFailed(url))
    else
      var d := web.details[url];
      if !HasDateMatch(Trim(d.emText)) then Failure(DateNotFound(url))
      else
        match IdOf(d.smallText)
        case None => Failure(IdNotFound(url))
        case Some(id) =>
          var t := FoldRows(d.rows);
          FoldRowsProps(d.rows);
          SourcesSpec(d.images);
          Success(Detail(id, d.parsedDate, Trim(d.titleText), District(d.strongText),
                         t.area, t.rooms, t.floor, t.maxFloor,
                         Trim(d.contentText), Trim(d.sellerText), Sources(d.images), t.props))
  }

  /** The `.each` loop over the property table. */
  method ReadTable(rows: seq<TableRow>)
    returns (props: seq<Prop>, floor: string, maxFloor: string, rooms: string, area: string)
    ensures Table(props, floor, maxFloor, rooms, area) == FoldRows(rows)
  {
    props, floor, maxFloor, rooms, area := [], "", "", "", "";
    for i := 0 to |rows|
      invariant Table(props, floor, maxFloor, rooms, area) == FoldRows(rows[..i])
    {
      assert rows[..i + 1][..i] == rows[..i];
      var th := Trim(rows[i].th);
      var td := Trim(rows[i].td);
      if th == FLOOR_LABEL {
        floor := td;
      } else if th == MAX_FLOOR_LABEL {
        maxFloor := td;
      } else if th == ROOMS_LABEL {
        rooms := td;
      } else if th == AREA_LABEL {
        area := td;
      }
      props := props + [Prop(th, td)];
    }
    assert rows[..|rows|] == rows;
  }

  /** The `.each` loop over the gallery images. */
  method CollectPhotos(images: seq<Image>) returns (photos: seq<Option<string>>)
    ensures photos == Sources(images)
  {
    photos := [];
    for i := 0 to |images|
      invariant photos == Sources(images[..i])
    {
      assert images[..i + 1][..i] == images[..i];
      photos := photos + [images[i].src];
    }
    assert images[..|images|] == images;
  }

  /** `getDetails(url)`, step by step in the source's order. */
  method GetDetails(web: Web, url: Url) returns (r: Result<Detail, Error>)
    ensures r == DetailsOf(web, url)
  {
    if url !in web.details {
      return Failure(FetchFailed(url));
    }
    var d := web.details[url];
    var title := Trim(d.titleText);
    var district := District(d.strongText);
    if !HasDateMatch(Trim(d.emText)) {
      return Failure(DateNotFound(url));
    }
    var date := d.parsedDate;
    var idParts := IdOf(d.smallText);
    if idParts.None? {
      return Failure(IdNotFound(url));
    }
    var id := idParts.value;
    var props, floor, maxFloor, rooms, area := ReadTable(d.rows);
    var description := Trim(d.contentText);
    var seller := Trim(d.sellerText);
    var photos := CollectPhotos(d.images);
    return Success(Detail(id, date, title, district, area, rooms, floor, maxFloor,
                          description, seller, photos, props));
  }
}

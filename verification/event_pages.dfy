// Paging through the visible schedule events by cursor
// (backend/apps/schedules/event_services.py, lines 23-45).
module EventPages {
  import opened Results
  import opened EventCursor
  import S = Sequences

  datatype Row = Row(updatedAt: int, id: nat)

  datatype Event = Event(cursor: string, item: Row)

  datatype FeedError = BadCursor | BadTimestamp

  // How a row becomes a cursor and back.
  datatype Codec = Codec(encode: Row -> string, decode: string -> Result<Row, FeedError>)

  ghost predicate Faithful(codec: Codec) {
    forall r :: codec.encode(r) != "" && codec.decode(codec.encode(r)) == Ok(r)
  }

  // How the database renders and reads timestamps; ISO text needs no JSON escapes.
  datatype RawClock = RawClock(iso: int -> string, parse: string -> Option<int>)

  type Clock = c: RawClock | forall t :: PlainText(c.iso(t)) witness RawClock(t => "", s => None)

  function ReadCursor(clock: Clock, cursor: string): Result<Row, FeedError> {
    var decoded := DecodeCursor(cursor);
    if decoded.Err? then Err(BadCursor)
    else
      var updatedAt := clock.parse(decoded.value.0);
      if updatedAt.None? then Err(BadTimestamp) else Ok(Row(updatedAt.value, decoded.value.1))
  }

  // The codec in use: encode_event_cursor and decode_event_cursor around the timestamp text.
  function CursorCodec(clock: Clock): Codec {
    Codec((r: Row) => EncodeCursor(clock.iso(r.updatedAt), r.id), (s: string) => ReadCursor(clock, s))
  }

  // If timestamps survive being rendered and read, so does every cursor.
  lemma CursorsAreFaithful(clock: Clock)
    requires forall t :: clock.parse(clock.iso(t)) == Some(t)
    ensures Faithful(CursorCodec(clock))
  {
    forall r: Row ensures CursorCodec(clock).encode(r) != ""
      && CursorCodec(clock).decode(CursorCodec(clock).encode(r)) == Ok(r)
    {
      CursorRoundTrip(clock.iso(r.updatedAt), r.id);
    }
  }

  // order_by("updated_at", "id"); ids are unique.
  predicate Before(a: Row, b: Row) {
    a.updatedAt < b.updatedAt || (a.updatedAt == b.updatedAt && a.id < b.id)
  }

  ghost predicate Listed(rows: seq<Row>) {
    forall i, j :: 0 <= i < j < |rows| ==> Before(rows[i], rows[j])
  }

  // The keyset filter of the query.
  function Later(rows: seq<Row>, mark: Row): seq<Row> {
    if rows == [] then []
    else (if Before(mark, rows[0]) then [rows[0]] else []) + Later(rows[1..], mark)
  }

  function Events(rows: seq<Row>, codec: Codec): (r: seq<Event>)
    ensures |r| == |rows|
    ensures forall i :: 0 <= i < |rows| ==> r[i] == Event(codec.encode(rows[i]), rows[i])
  {
    seq(|rows|, i requires 0 <= i < |rows| => Event(codec.encode(rows[i]), rows[i]))
  }

  // The rows of one page of schedule_events_visible_to; "" means no cursor.
  function PageRows(rows: seq<Row>, codec: Codec, after: string, limit: nat): Result<seq<Row>, FeedError> {
    if after == "" then Ok(S.First(rows, limit))
    else
      var mark := codec.decode(after);
      if mark.Err? then Err(mark.error) else Ok(S.First(Later(rows, mark.value), limit))
  }

  function Page(rows: seq<Row>, codec: Codec, after: string, limit: nat): Result<seq<Event>, FeedError> {
    var page := PageRows(rows, codec, after, limit);
    if page.Err? then Err(page.error) else Ok(Events(page.value, codec))
  }

  lemma {:induction false} LaterAll(rows: seq<Row>, mark: Row)
    requires forall i :: 0 <= i < |rows| ==> Before(mark, rows[i])
    ensures Later(rows, mark) == rows
  {
    if rows != [] {
      LaterAll(rows[1..], mark);
    }
  }

  lemma {:induction false} LaterSuffix(rows: seq<Row>, k: nat)
    requires Listed(rows) && k < |rows|
    ensures Later(rows, rows[k]) == rows[k + 1..]
  {
    if k == 0 {
      LaterAll(rows[1..], rows[0]);
    } else {
      assert Before(rows[0], rows[k]);
      LaterSuffix(rows[1..], k - 1);
      assert rows[1..][k..] == rows[k + 1..];
    }
  }

  // The cursor a client holds after the first k rows.
  function CursorAt(rows: seq<Row>, codec: Codec, k: nat): string
    requires k <= |rows|
  {
    if k == 0 then "" else codec.encode(rows[k - 1])
  }

  // How many rows the page after the first k holds.
  function PageSize(rows: seq<Row>, k: nat, limit: nat): nat
    requires k <= |rows|
  {
    if |rows| - k <= limit then |rows| - k else limit
  }

  // Asking with that cursor gives the next rows, no gap and no repeat.
  lemma PageContinues(rows: seq<Row>, codec: Codec, k: nat, limit: nat)
    requires Faithful(codec) && Listed(rows) && k <= |rows|
    ensures PageRows(rows, codec, CursorAt(rows, codec, k), limit) == Ok(rows[k..k + PageSize(rows, k, limit)])
  {
    if k > 0 {
      LaterSuffix(rows, k - 1);
    } else {
      assert rows[0..] == rows;
    }
    assert S.First(rows[k..], limit) == rows[k..k + PageSize(rows, k, limit)];
  }

  // A client that asks for `pages` pages, each time with the cursor of the last event it was
  // given, and stops at an empty page.
  function Walk(rows: seq<Row>, codec: Codec, after: string, limit: nat, pages: nat): seq<Row>
    decreases pages
  {
    if pages == 0 then []
    else
      var page := Page(rows, codec, after, limit);
      if page.Err? || page.value == [] then []
      else Items(page.value) + Walk(rows, codec, page.value[|page.value| - 1].cursor, limit, pages - 1)
  }

  function Items(events: seq<Event>): (r: seq<Row>)
    ensures |r| == |events|
    ensures forall i :: 0 <= i < |events| ==> r[i] == events[i].item
  {
    seq(|events|, i requires 0 <= i < |events| => events[i].item)
  }

  // A non-empty page, and the cursor of its last event.
  lemma PageOf(rows: seq<Row>, codec: Codec, after: string, limit: nat, part: seq<Row>)
    requires part != [] && PageRows(rows, codec, after, limit) == Ok(part)
    ensures Page(rows, codec, after, limit) == Ok(Events(part, codec))
    ensures Events(part, codec) != [] && Events(part, codec)[|part| - 1].cursor == codec.encode(part[|part| - 1])
    ensures Items(Events(part, codec)) == part
  {
  }

  lemma WalkOneMore(rows: seq<Row>, codec: Codec, after: string, limit: nat, pages: nat, part: seq<Row>)
    requires pages > 0 && part != [] && PageRows(rows, codec, after, limit) == Ok(part)
    ensures Walk(rows, codec, after, limit, pages) ==
      part + Walk(rows, codec, codec.encode(part[|part| - 1]), limit, pages - 1)
  {
    PageOf(rows, codec, after, limit, part);
  }

  lemma WalkStep(rows: seq<Row>, codec: Codec, k: nat, limit: nat, pages: nat, part: seq<Row>, next: string)
    requires Faithful(codec) && Listed(rows) && k < |rows| && limit >= 1 && pages > 0
    requires part == rows[k..k + PageSize(rows, k, limit)]
    requires next == CursorAt(rows, codec, k + PageSize(rows, k, limit))
    ensures Walk(rows, codec, CursorAt(rows, codec, k), limit, pages) == part + Walk(rows, codec, next, limit, pages - 1)
  {
    PageContinues(rows, codec, k, limit);
    assert part[|part| - 1] == rows[k + PageSize(rows, k, limit) - 1];
    WalkOneMore(rows, codec, CursorAt(rows, codec, k), limit, pages, part);
  }

  lemma WalkEnds(rows: seq<Row>, codec: Codec, limit: nat, pages: nat)
    requires Faithful(codec) && Listed(rows)
    ensures Walk(rows, codec, CursorAt(rows, codec, |rows|), limit, pages) == []
  {
    if pages > 0 {
      PageContinues(rows, codec, |rows|, limit);
    }
  }

  // How many rows `pages` pages can hold.
  function Capacity(limit: nat, pages: nat): nat {
    if pages == 0 then 0 else Capacity(limit, pages - 1) + limit
  }

  lemma {:induction false} CapacityIsProduct(limit: nat, pages: nat)
    ensures Capacity(limit, pages) == pages * limit
  {
    if pages > 0 {
      CapacityIsProduct(limit, pages - 1);
    }
  }

  lemma {:induction false} WalkFrom(rows: seq<Row>, codec: Codec, k: nat, limit: nat, pages: nat)
    requires Faithful(codec) && Listed(rows) && k <= |rows| && limit >= 1
    requires Capacity(limit, pages) >= |rows| - k
    ensures Walk(rows, codec, CursorAt(rows, codec, k), limit, pages) == rows[k..]
    decreases pages
  {
    if k < |rows| {
      var next := k + PageSize(rows, k, limit);
      WalkFrom(rows, codec, next, limit, pages - 1);
      WalkStep(rows, codec, k, limit, pages, rows[k..next], CursorAt(rows, codec, next));
      Rejoin(rows, k, next);
    } else {
      WalkEnds(rows, codec, limit, pages);
    }
  }

  lemma Rejoin(rows: seq<Row>, k: nat, next: nat)
    requires k <= next <= |rows|
    ensures rows[k..] == rows[k..next] + rows[next..]
  {
  }

  // Following cursors from the start yields every visible event exactly once, in order, and the
  // walk is over after ceil(n / limit) pages: asking further adds nothing.
  lemma WalkVisitsEverythingOnce(rows: seq<Row>, clock: Clock, limit: nat, pages: nat)
    requires forall t :: clock.parse(clock.iso(t)) == Some(t)
    requires Listed(rows) && limit >= 1 && pages * limit >= |rows|
    ensures Walk(rows, CursorCodec(clock), "", limit, pages) == rows
  {
    CursorsAreFaithful(clock);
    CapacityIsProduct(limit, pages);
    WalkFrom(rows, CursorCodec(clock), 0, limit, pages);
    assert rows[0..] == rows;
  }
}

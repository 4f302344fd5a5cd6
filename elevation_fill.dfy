/** geojson-processing.py: find the positions of features with id 1..99
    that lack an elevation, ask the elevation service for them in batches of
    100, and write every elevation returned back into the document in place. */
module ElevationFill {
  import opened Common
  import opened GeoJson
  import opened Batching

  /** `BATCH_SIZE`. */
  const BatchSize: nat := 100

  /** An entry of `locations_to_fetch`: `(lat, lon, feature_idx, coord_idx)`. */
  datatype Location = Location(lat: real, lon: real, feature: nat, coord: nat)

  /** What one request of the fetch loop yields: an exception (network,
      HTTP or JSON decoding), a reply without `"results"`, or the
      `elevation` of each result in order, `None` when absent or null. */
  datatype Response = Raised | NoResults | Results(elevations: seq<Option<real>>)

  /** The feature's `id` property is present, not null and within 1..99. */
  predicate InRange(f: Feature) {
    f.id.Some? && 1 <= f.id.value <= 99
  }

  // ---------------------------------------------------------------------
  // Step 1: selection

  /** The locations of the positions of `cs` without elevation, in order,
      for feature index `fi`. */
  function MissingCoords(cs: seq<Position>, fi: nat): (locs: seq<Location>)
    ensures forall k :: 0 <= k < |locs| ==> locs[k].feature == fi && locs[k].coord < |cs|
  {
    if |cs| == 0 then []
    else
      var p := cs[|cs| - 1];
      MissingCoords(cs[..|cs| - 1], fi)
        + (if Elevation(p).None? then [Location(p.lat, p.lon, fi, |cs| - 1)] else [])
  }

  /** `locations_to_fetch` after the selection loop. */
  function MissingIn(fs: seq<Feature>): seq<Location>
  {
    if |fs| == 0 then []
    else
      var f := fs[|fs| - 1];
      MissingIn(fs[..|fs| - 1]) + (if InRange(f) then MissingCoords(f.coords, |fs| - 1) else [])
  }

  /** The location names position `ci` of feature `fi`. */
  predicate At(loc: Location, fi: nat, ci: nat) {
    loc.feature == fi && loc.coord == ci
  }

  /** One more feature: its own missing positions follow, if its id is in range. */
  lemma MissingInSnoc(fs: seq<Feature>, fi: nat)
    requires fi < |fs|
    ensures MissingIn(fs[..fi + 1]) ==
      MissingIn(fs[..fi]) + (if InRange(fs[fi]) then MissingCoords(fs[fi].coords, fi) else [])
  {
    assert fs[..fi + 1][..fi] == fs[..fi];
  }

  /** Every location indexes an existing position. */
  predicate ValidLocs(fs: seq<Feature>, locs: seq<Location>) {
    forall k :: 0 <= k < |locs| ==> locs[k].feature < |fs| && locs[k].coord < |fs[locs[k].feature].coords|
  }

  /** What the selection is meant to pick: a position without elevation in
      a feature whose id is in range, with its own latitude and longitude. */
  predicate Selected(fs: seq<Feature>, loc: Location) {
    && loc.feature < |fs| && InRange(fs[loc.feature])
    && loc.coord < |fs[loc.feature].coords|
    && var p := fs[loc.feature].coords[loc.coord];
       Elevation(p).None? && loc.lat == p.lat && loc.lon == p.lon
  }

  lemma {:induction false} MissingCoordsIff(cs: seq<Position>, fi: nat, loc: Location)
    ensures loc in MissingCoords(cs, fi) <==>
      && loc.feature == fi && loc.coord < |cs| && Elevation(cs[loc.coord]).None?
      && loc.lat == cs[loc.coord].lat && loc.lon == cs[loc.coord].lon
  {
    if |cs| > 0 {
      var init := cs[..|cs| - 1];
      MissingCoordsIff(init, fi, loc);
      if loc.coord < |init| {
        assert init[loc.coord] == cs[loc.coord];
      }
    }
  }

  /** A location is selected if and only if it is a position without
      elevation in a feature whose id is within 1..99. */
  lemma {:induction false} SelectedIff(fs: seq<Feature>, loc: Location)
    ensures loc in MissingIn(fs) <==> Selected(fs, loc)
  {
    if |fs| > 0 {
      var init := fs[..|fs| - 1];
      var f := fs[|fs| - 1];
      SelectedIff(init, loc);
      MissingCoordsIff(f.coords, |fs| - 1, loc);
      if loc.feature < |init| {
        assert init[loc.feature] == fs[loc.feature];
      }
    }
  }

  /** Every entry of `locations_to_fetch` names an existing position. */
  lemma {:induction false} MissingInValid(fs: seq<Feature>)
    ensures ValidLocs(fs, MissingIn(fs))
  {
    if |fs| > 0 {
      var init := fs[..|fs| - 1];
      MissingInValid(init);
      var a := MissingIn(init);
      assert forall k :: 0 <= k < |a| ==> fs[a[k].feature] == init[a[k].feature];
    }
  }

  /** Document order: by feature index, then by coordinate index. */
  predicate Before(a: Location, b: Location) {
    a.feature < b.feature || (a.feature == b.feature && a.coord < b.coord)
  }

  predicate Ordered(locs: seq<Location>) {
    forall i, j :: 0 <= i < j < |locs| ==> Before(locs[i], locs[j])
  }

  lemma {:induction false} MissingCoordsOrdered(cs: seq<Position>, fi: nat)
    ensures Ordered(MissingCoords(cs, fi))
  {
    if |cs| > 0 {
      MissingCoordsOrdered(cs[..|cs| - 1], fi);
    }
  }

  /** The entries are kept in document order, each position at most once. */
  lemma {:induction false} MissingInOrdered(fs: seq<Feature>)
    ensures Ordered(MissingIn(fs))
  {
    if |fs| > 0 {
      var init := fs[..|fs| - 1];
      MissingInOrdered(init);
      MissingCoordsOrdered(fs[|fs| - 1].coords, |fs| - 1);
      MissingInValid(init);
    }
  }

  // ---------------------------------------------------------------------
  // Step 2: write-back

  /** Same features, same properties, same number of positions each. */
  predicate SameShape(a: seq<Feature>, b: seq<Feature>) {
    && |a| == |b|
    && forall i :: 0 <= i < |a| ==>
         a[i].name == b[i].name && a[i].id == b[i].id && |a[i].coords| == |b[i].coords|
  }

  lemma ValidLocsShape(a: seq<Feature>, b: seq<Feature>, locs: seq<Location>)
    requires SameShape(a, b) && ValidLocs(a, locs)
    ensures ValidLocs(b, locs)
  {
  }

  /** Assigning `coordinates[ci]` of feature `fi`. */
  function SetCoord(fs: seq<Feature>, fi: nat, ci: nat, p: Position): (r: seq<Feature>)
    requires fi < |fs| && ci < |fs[fi].coords|
    ensures SameShape(fs, r)
    ensures r[fi].coords[ci] == p
    ensures forall i, j :: 0 <= i < |fs| && 0 <= j < |fs[i].coords| && (i != fi || j != ci) ==>
      r[i].coords[j] == fs[i].coords[j]
  {
    fs[fi := fs[fi].(coords := fs[fi].coords[ci := p])]
  }

  /** One pair of the zip: an elevation that is not `None` replaces the
      position by `[lon, lat, elev]`; every other position stays. */
  function WriteOne(fs: seq<Feature>, loc: Location, e: Option<real>): (r: seq<Feature>)
    requires loc.feature < |fs| && loc.coord < |fs[loc.feature].coords|
    ensures SameShape(fs, r)
  {
    var p := fs[loc.feature].coords[loc.coord];
    if e.Some? then SetCoord(fs, loc.feature, loc.coord, WithElevation(p.lon, p.lat, e)) else fs
  }

  /** What one pair leaves at position `(fi, ci)`. */
  lemma WriteOneAt(fs: seq<Feature>, loc: Location, e: Option<real>, fi: nat, ci: nat)
    requires loc.feature < |fs| && loc.coord < |fs[loc.feature].coords|
    requires fi < |fs| && ci < |fs[fi].coords|
    ensures var p := fs[fi].coords[ci];
      WriteOne(fs, loc, e)[fi].coords[ci] ==
        if e.Some? && At(loc, fi, ci) then WithElevation(p.lon, p.lat, e) else p
  {
  }

  /** The `zip(results, batch)` loop from pair `k` on: each elevation that
      is not `None` replaces its position by `[lon, lat, elev]`, keeping the
      position's longitude and latitude; the zip stops at the shorter list. */
  function WriteFrom(fs: seq<Feature>, batch: seq<Location>, es: seq<Option<real>>, k: nat): (r: seq<Feature>)
    requires ValidLocs(fs, batch) && k <= |batch|
    ensures SameShape(fs, r)
    decreases |batch| - k
  {
    if k == |batch| || k >= |es| then fs
    else
      var next := WriteOne(fs, batch[k], es[k]);
      ValidLocsShape(fs, next, batch);
      WriteFrom(next, batch, es, k + 1)
  }

  /** The whole zip loop of one answered batch. */
  function WriteBack(fs: seq<Feature>, batch: seq<Location>, es: seq<Option<real>>): (r: seq<Feature>)
    requires ValidLocs(fs, batch)
    ensures SameShape(fs, r)
  {
    WriteFrom(fs, batch, es, 0)
  }

  /** Pair `k` of the zip carries an elevation for position `(fi, ci)`. */
  predicate Written(batch: seq<Location>, es: seq<Option<real>>, fi: nat, ci: nat) {
    exists k :: 0 <= k < |batch| && k < |es| && es[k].Some? && At(batch[k], fi, ci)
  }

  /** No pair from `k` on writes position `(fi, ci)`. */
  predicate UnwrittenFrom(batch: seq<Location>, es: seq<Option<real>>, k: nat, fi: nat, ci: nat) {
    forall j :: k <= j < |batch| && j < |es| && es[j].Some? ==> !At(batch[j], fi, ci)
  }

  lemma {:induction false} WriteFromFrame(fs: seq<Feature>, batch: seq<Location>, es: seq<Option<real>>, k: nat, fi: nat, ci: nat)
    requires ValidLocs(fs, batch) && k <= |batch|
    requires fi < |fs| && ci < |fs[fi].coords|
    requires UnwrittenFrom(batch, es, k, fi, ci)
    ensures WriteFrom(fs, batch, es, k)[fi].coords[ci] == fs[fi].coords[ci]
    decreases |batch| - k
  {
    if k < |batch| && k < |es| {
      var next := WriteOne(fs, batch[k], es[k]);
      ValidLocsShape(fs, next, batch);
      WriteOneAt(fs, batch[k], es[k], fi, ci);
      WriteFromFrame(next, batch, es, k + 1, fi, ci);
    }
  }

  /** A position that no pair of the zip writes is left as it was. */
  lemma WriteBackFrame(fs: seq<Feature>, batch: seq<Location>, es: seq<Option<real>>, fi: nat, ci: nat)
    requires ValidLocs(fs, batch)
    requires fi < |fs| && ci < |fs[fi].coords|
    requires !Written(batch, es, fi, ci)
    ensures WriteBack(fs, batch, es)[fi].coords[ci] == fs[fi].coords[ci]
  {
    WriteFromFrame(fs, batch, es, 0, fi, ci);
  }

  /** No two entries of the batch name the same position. */
  predicate Distinct(batch: seq<Location>) {
    forall i, j :: 0 <= i < j < |batch| ==>
      !At(batch[i], batch[j].feature, batch[j].coord)
  }

  /** Pair `k` writes its position, and no later pair touches it again. */
  lemma WriteFromWritesHere(fs: seq<Feature>, batch: seq<Location>, es: seq<Option<real>>, k: nat)
    requires ValidLocs(fs, batch) && Distinct(batch)
    requires k < |batch| && k < |es| && es[k].Some?
    ensures var loc := batch[k];
      var p := fs[loc.feature].coords[loc.coord];
      WriteFrom(fs, batch, es, k)[loc.feature].coords[loc.coord] == WithElevation(p.lon, p.lat, es[k])
  {
    var loc := batch[k];
    var next := WriteOne(fs, loc, es[k]);
    ValidLocsShape(fs, next, batch);
    WriteOneAt(fs, loc, es[k], loc.feature, loc.coord);
    assert UnwrittenFrom(batch, es, k + 1, loc.feature, loc.coord);
    WriteFromFrame(next, batch, es, k + 1, loc.feature, loc.coord);
  }

  lemma {:induction false} WriteFromWrites(fs: seq<Feature>, batch: seq<Location>, es: seq<Option<real>>, j: nat, k: nat)
    requires ValidLocs(fs, batch) && Distinct(batch)
    requires j <= k < |batch| && k < |es| && es[k].Some?
    ensures var loc := batch[k];
      var p := fs[loc.feature].coords[loc.coord];
      WriteFrom(fs, batch, es, j)[loc.feature].coords[loc.coord] == WithElevation(p.lon, p.lat, es[k])
    decreases k - j
  {
    if j == k {
      WriteFromWritesHere(fs, batch, es, k);
    } else {
      var loc := batch[k];
      var next := WriteOne(fs, batch[j], es[j]);
      ValidLocsShape(fs, next, batch);
      WriteOneAt(fs, batch[j], es[j], loc.feature, loc.coord);
      WriteFromWrites(next, batch, es, j + 1, k);
    }
  }

  /** A pair whose elevation is not `None` leaves `[lon, lat, elev]` at its
      position, with the position's own longitude and latitude. */
  lemma WriteBackWrites(fs: seq<Feature>, batch: seq<Location>, es: seq<Option<real>>, k: nat)
    requires ValidLocs(fs, batch) && Distinct(batch)
    requires k < |batch| && k < |es| && es[k].Some?
    ensures var loc := batch[k];
      var p := fs[loc.feature].coords[loc.coord];
      WriteBack(fs, batch, es)[loc.feature].coords[loc.coord] == WithElevation(p.lon, p.lat, es[k])
  {
    WriteFromWrites(fs, batch, es, 0, k);
  }

  /** Every batch indexes existing positions. */
  predicate AllValid(fs: seq<Feature>, batches: seq<seq<Location>>) {
    forall b :: 0 <= b < |batches| ==> ValidLocs(fs, batches[b])
  }

  /** The fetch loop over the batches; the counter `i` numbers them from 1
      and each request sees its number and its batch. A batch that raised
      or came back without results changes nothing, and the loop goes on. */
  function FillBatches(fs: seq<Feature>, batches: seq<seq<Location>>,
                       fetch: (nat, seq<Location>) -> Response, i: nat): (r: seq<Feature>)
    requires AllValid(fs, batches)
    ensures SameShape(fs, r)
    decreases |batches|
  {
    if |batches| == 0 then fs
    else
      var next := match fetch(i, batches[0])
        case Results(es) => WriteBack(fs, batches[0], es)
        case _ => fs;
      assert AllValid(next, batches[1..]) by {
        forall b | 0 <= b < |batches| - 1 ensures ValidLocs(next, batches[1..][b]) {
          ValidLocsShape(fs, next, batches[b + 1]);
        }
      }
      FillBatches(next, batches[1..], fetch, i + 1)
  }

  /** The rounds of the fetch loop from batch `k` (counted from 0) on. */
  function Remaining(fs: seq<Feature>, batches: seq<seq<Location>>,
                     fetch: (nat, seq<Location>) -> Response, k: nat): seq<Feature>
    requires AllValid(fs, batches) && k <= |batches|
  {
    assert AllValid(fs, batches[k..]) by {
      forall b | 0 <= b < |batches| - k ensures ValidLocs(fs, batches[k..][b]) {
        assert batches[k..][b] == batches[k + b];
      }
    }
    FillBatches(fs, batches[k..], fetch, k + 1)
  }

  /** Round `k` of the fetch loop: batch `k`'s answer is written back (or
      not), then the batches after it follow; every batch stays valid. */
  lemma FillBatchesStep(fs: seq<Feature>, batches: seq<seq<Location>>,
                        fetch: (nat, seq<Location>) -> Response, k: nat, next: seq<Feature>)
    requires k < |batches|
    requires AllValid(fs, batches)
    requires var response := fetch(k + 1, batches[k]);
      next == if response.Results? then WriteBack(fs, batches[k], response.elevations) else fs
    ensures AllValid(next, batches)
    ensures Remaining(fs, batches, fetch, k) == Remaining(next, batches, fetch, k + 1)
  {
    assert SameShape(fs, next);
    forall b | 0 <= b < |batches| ensures ValidLocs(next, batches[b]) {
      ValidLocsShape(fs, next, batches[b]);
    }
    assert batches[k..][1..] == batches[k + 1..];
    assert batches[k..][0] == batches[k];
  }

  /** No answered batch carries an elevation for position `(fi, ci)`:
      batch `b` is request number `i + b`. */
  predicate NeverWritten(batches: seq<seq<Location>>, fetch: (nat, seq<Location>) -> Response,
                         i: nat, fi: nat, ci: nat) {
    forall b :: 0 <= b < |batches| && fetch(i + b, batches[b]).Results? ==>
      !Written(batches[b], fetch(i + b, batches[b]).elevations, fi, ci)
  }

  /** A position that no answered batch writes is left as it was: the
      requests that raised, the replies without results, the `None`
      elevations and the pairs past the end of the zip change nothing. */
  lemma {:induction false} FillFrame(fs: seq<Feature>, batches: seq<seq<Location>>,
                                     fetch: (nat, seq<Location>) -> Response, i: nat, fi: nat, ci: nat)
    requires AllValid(fs, batches)
    requires fi < |fs| && ci < |fs[fi].coords|
    requires NeverWritten(batches, fetch, i, fi, ci)
    ensures FillBatches(fs, batches, fetch, i)[fi].coords[ci] == fs[fi].coords[ci]
    decreases |batches|
  {
    if |batches| > 0 {
      var response := fetch(i, batches[0]);
      var next := if response.Results? then WriteBack(fs, batches[0], response.elevations) else fs;
      if response.Results? {
        assert fetch(i + 0, batches[0]) == response;
        WriteBackFrame(fs, batches[0], response.elevations, fi, ci);
      }
      FillBatchesFirst(fs, batches, fetch, i, next);
      var rest := batches[1..];
      forall b | 0 <= b < |rest| && fetch(i + 1 + b, rest[b]).Results?
        ensures !Written(rest[b], fetch(i + 1 + b, rest[b]).elevations, fi, ci)
      {
        assert rest[b] == batches[b + 1] && i + 1 + b == i + (b + 1);
      }
      FillFrame(next, rest, fetch, i + 1, fi, ci);
    }
  }

  /** A position named by no entry of any batch is never written. */
  lemma UnnamedNeverWritten(batches: seq<seq<Location>>, fetch: (nat, seq<Location>) -> Response,
                            i: nat, fi: nat, ci: nat)
    requires forall b, loc :: 0 <= b < |batches| && loc in batches[b] ==> !At(loc, fi, ci)
    ensures NeverWritten(batches, fetch, i, fi, ci)
  {
    forall b, k | 0 <= b < |batches| && 0 <= k < |batches[b]| ensures !At(batches[b][k], fi, ci) {
      assert batches[b][k] in batches[b];
    }
  }

  /** The batches the script sends. */
  function Batches(fs: seq<Feature>): (bs: seq<seq<Location>>)
    ensures forall b :: 0 <= b < |bs| ==> ValidLocs(fs, bs[b])
  {
    var locs := MissingIn(fs);
    MissingInValid(fs);
    ChunksMembers(locs, BatchSize);
    var bs := Chunks(locs, BatchSize);
    assert forall b, j :: 0 <= b < |bs| && 0 <= j < |bs[b]| ==> bs[b][j] in locs;
    bs
  }

  /** Nothing else changes: every position that was not selected (its
      feature's id is not in 1..99, or it already had an elevation) comes
      out of the whole run as it went in, whatever the service answers. */
  lemma UnselectedUnchanged(fs: seq<Feature>, fetch: (nat, seq<Location>) -> Response, fi: nat, ci: nat)
    requires fi < |fs| && ci < |fs[fi].coords|
    requires !InRange(fs[fi]) || Elevation(fs[fi].coords[ci]).Some?
    ensures FillBatches(fs, Batches(fs), fetch, 1)[fi].coords[ci] == fs[fi].coords[ci]
  {
    var locs := MissingIn(fs);
    var bs := Batches(fs);
    ChunksMembers(locs, BatchSize);
    forall b, loc: Location | 0 <= b < |bs| && loc in bs[b]
      ensures !At(loc, fi, ci)
    {
      SelectedIff(fs, loc);
    }
    UnnamedNeverWritten(bs, fetch, 1, fi, ci);
    FillFrame(fs, bs, fetch, 1, fi, ci);
  }

  /** No entry of `a` names a position that an entry of `c` names. */
  predicate Disjoint(a: seq<Location>, c: seq<Location>) {
    forall i, j :: 0 <= i < |a| && 0 <= j < |c| ==> !At(a[i], c[j].feature, c[j].coord)
  }

  /** Each batch names a position at most once, and no position is in two
      batches. */
  predicate DistinctBatches(bs: seq<seq<Location>>) {
    && (forall b :: 0 <= b < |bs| ==> Distinct(bs[b]))
    && (forall b1, b2 :: 0 <= b1 < b2 < |bs| ==> Disjoint(bs[b1], bs[b2]))
  }

  lemma {:induction false} MulStep(b1: nat, b2: nat, n: nat)
    requires b1 < b2
    ensures b1 * n + n <= b2 * n
    decreases b2
  {
    assert (b2 - 1) * n + n == b2 * n;
    if b2 > b1 + 1 {
      MulStep(b1, b2 - 1, n);
    }
  }

  /** The batches the script sends are distinct: `locations_to_fetch` is in
      document order and the batches are consecutive slices of it. */
  lemma BatchesDistinct(fs: seq<Feature>)
    ensures DistinctBatches(Batches(fs))
  {
    var locs := MissingIn(fs);
    MissingInOrdered(fs);
    var bs: seq<seq<Location>> := Batches(fs);
    assert bs == Chunks(locs, BatchSize);
    forall b1: int, j1: int, b2: int, j2: int | 0 <= b1 < |bs| && 0 <= j1 < |bs[b1]| && 0 <= b2 < |bs| && 0 <= j2 < |bs[b2]|
                            && (b1 < b2 || (b1 == b2 && j1 < j2))
      ensures !At(bs[b1][j1], bs[b2][j2].feature, bs[b2][j2].coord)
    {
      ChunkAt(locs, BatchSize, b1, j1);
      ChunkAt(locs, BatchSize, b2, j2);
      if b1 < b2 {
        MulStep(b1, b2, BatchSize);
      }
      assert Before(locs[b1 * BatchSize + j1], locs[b2 * BatchSize + j2]);
    }
  }

  /** The batches after the first stay distinct. */
  lemma DistinctBatchesTail(bs: seq<seq<Location>>)
    requires |bs| > 0 && DistinctBatches(bs)
    ensures DistinctBatches(bs[1..])
  {
    forall b | 0 <= b < |bs| - 1 ensures Distinct(bs[1..][b]) {
      assert bs[1..][b] == bs[b + 1];
    }
    forall b1, b2 | 0 <= b1 < b2 < |bs| - 1 ensures Disjoint(bs[1..][b1], bs[1..][b2]) {
      assert bs[1..][b1] == bs[b1 + 1] && bs[1..][b2] == bs[b2 + 1];
    }
  }

  /** The first round of the fetch loop: batch 0's answer is written back
      (or not) and the loop goes on with the batches after it. */
  lemma FillBatchesFirst(fs: seq<Feature>, batches: seq<seq<Location>>,
                         fetch: (nat, seq<Location>) -> Response, i: nat, next: seq<Feature>)
    requires AllValid(fs, batches) && |batches| > 0
    requires var response := fetch(i, batches[0]);
      next == if response.Results? then WriteBack(fs, batches[0], response.elevations) else fs
    ensures AllValid(next, batches[1..])
    ensures FillBatches(fs, batches, fetch, i) == FillBatches(next, batches[1..], fetch, i + 1)
  {
    forall b | 0 <= b < |batches| - 1 ensures ValidLocs(next, batches[1..][b]) {
      ValidLocsShape(fs, next, batches[b + 1]);
    }
  }

  /** An entry of the first batch whose answer carries an elevation ends
      the loop as `[lon, lat, elev]`: no later batch names its position. */
  lemma FillWritesFirst(fs: seq<Feature>, batches: seq<seq<Location>>,
                        fetch: (nat, seq<Location>) -> Response, i: nat, j: nat)
    requires AllValid(fs, batches) && DistinctBatches(batches)
    requires 0 < |batches| && j < |batches[0]|
    requires var response := fetch(i, batches[0]);
      response.Results? && j < |response.elevations| && response.elevations[j].Some?
    ensures var loc := batches[0][j];
      var p := fs[loc.feature].coords[loc.coord];
      FillBatches(fs, batches, fetch, i)[loc.feature].coords[loc.coord] ==
        WithElevation(p.lon, p.lat, fetch(i, batches[0]).elevations[j])
  {
    var loc := batches[0][j];
    var es := fetch(i, batches[0]).elevations;
    var next := WriteBack(fs, batches[0], es);
    var rest := batches[1..];
    FillBatchesFirst(fs, batches, fetch, i, next);
    WriteBackWrites(fs, batches[0], es, j);
    forall b', loc' | 0 <= b' < |rest| && loc' in rest[b'] ensures !At(loc', loc.feature, loc.coord) {
      assert rest[b'] == batches[b' + 1];
      assert Disjoint(batches[0], batches[b' + 1]);
    }
    UnnamedNeverWritten(rest, fetch, i + 1, loc.feature, loc.coord);
    FillFrame(next, rest, fetch, i + 1, loc.feature, loc.coord);
  }

  /** An entry of batch `b` whose answer carries an elevation (batch `b` is
      request number `i + b`) ends the loop as `[lon, lat, elev]` with the
      position's own longitude and latitude: no other batch touches it. */
  lemma {:induction false} FillWrites(fs: seq<Feature>, batches: seq<seq<Location>>,
                                      fetch: (nat, seq<Location>) -> Response, i: nat, b: nat, j: nat)
    requires AllValid(fs, batches) && DistinctBatches(batches)
    requires b < |batches| && j < |batches[b]|
    requires var response := fetch(i + b, batches[b]);
      response.Results? && j < |response.elevations| && response.elevations[j].Some?
    ensures var loc := batches[b][j];
      var p := fs[loc.feature].coords[loc.coord];
      FillBatches(fs, batches, fetch, i)[loc.feature].coords[loc.coord] ==
        WithElevation(p.lon, p.lat, fetch(i + b, batches[b]).elevations[j])
    decreases b
  {
    if b == 0 {
      FillWritesFirst(fs, batches, fetch, i, j);
    } else {
      var loc := batches[b][j];
      var response := fetch(i, batches[0]);
      var next := if response.Results? then WriteBack(fs, batches[0], response.elevations) else fs;
      FillBatchesFirst(fs, batches, fetch, i, next);
      if response.Results? {
        assert Disjoint(batches[0], batches[b]);
        WriteBackFrame(fs, batches[0], response.elevations, loc.feature, loc.coord);
      }
      assert next[loc.feature].coords[loc.coord] == fs[loc.feature].coords[loc.coord];
      DistinctBatchesTail(batches);
      var rest := batches[1..];
      assert rest[b - 1] == batches[b] && i + 1 + (b - 1) == i + b;
      FillWrites(next, rest, fetch, i + 1, b - 1, j);
    }
  }

  /** The missing elevations get filled: entry `j` of batch `b` names a
      selected position, and when request `b + 1` answers with an elevation
      at index `j`, the whole run leaves `[lon, lat, elev]` there. */
  lemma FilledElevation(fs: seq<Feature>, fetch: (nat, seq<Location>) -> Response, b: nat, j: nat)
    requires b < |Batches(fs)| && j < |Batches(fs)[b]|
    requires var response := fetch(b + 1, Batches(fs)[b]);
      response.Results? && j < |response.elevations| && response.elevations[j].Some?
    ensures Selected(fs, Batches(fs)[b][j])
    ensures var loc := Batches(fs)[b][j];
      var p := fs[loc.feature].coords[loc.coord];
      FillBatches(fs, Batches(fs), fetch, 1)[loc.feature].coords[loc.coord] ==
        WithElevation(p.lon, p.lat, fetch(b + 1, Batches(fs)[b]).elevations[j])
  {
    var bs := Batches(fs);
    ChunksMembers(MissingIn(fs), BatchSize);
    assert bs[b][j] in bs[b];
    SelectedIff(fs, bs[b][j]);
    BatchesDistinct(fs);
    FillWrites(fs, bs, fetch, 1, b, j);
  }

  /** The other half: entry `j` of batch `b` names a selected position, and
      when request `b + 1` raised, came back without results, or has no
      elevation at index `j` (`None`, or the zip stopped before it), the
      whole run leaves that position as it was, still without elevation. */
  lemma UnfilledUnchanged(fs: seq<Feature>, fetch: (nat, seq<Location>) -> Response, b: nat, j: nat)
    requires b < |Batches(fs)| && j < |Batches(fs)[b]|
    requires var response := fetch(b + 1, Batches(fs)[b]);
      !(response.Results? && j < |response.elevations| && response.elevations[j].Some?)
    ensures Selected(fs, Batches(fs)[b][j])
    ensures var loc := Batches(fs)[b][j];
      && FillBatches(fs, Batches(fs), fetch, 1)[loc.feature].coords[loc.coord] == fs[loc.feature].coords[loc.coord]
      && Elevation(FillBatches(fs, Batches(fs), fetch, 1)[loc.feature].coords[loc.coord]).None?
  {
    var bs := Batches(fs);
    var loc := bs[b][j];
    ChunksMembers(MissingIn(fs), BatchSize);
    assert loc in bs[b];
    SelectedIff(fs, loc);
    BatchesDistinct(fs);
    forall b' | 0 <= b' < |bs| && fetch(1 + b', bs[b']).Results?
      ensures !Written(bs[b'], fetch(1 + b', bs[b']).elevations, loc.feature, loc.coord)
    {
      var es := fetch(1 + b', bs[b']).elevations;
      forall k | 0 <= k < |bs[b']| && k < |es| && es[k].Some?
        ensures !At(bs[b'][k], loc.feature, loc.coord)
      {
        if b' < b {
          assert Disjoint(bs[b'], bs[b]);
        } else if b < b' {
          assert Disjoint(bs[b], bs[b']);
        } else if k < j {
          assert Distinct(bs[b]);
        } else if j < k {
          assert Distinct(bs[b]);
        }
      }
    }
    FillFrame(fs, bs, fetch, 1, loc.feature, loc.coord);
  }

  /** The inner loop of the selection, over one feature's positions. */
  method MissingPositions(cs: seq<Position>, fi: nat) returns (locs: seq<Location>)
    ensures locs == MissingCoords(cs, fi)
  {
    locs := [];
    var ci := 0;
    while ci < |cs|
      invariant ci <= |cs|
      invariant locs == MissingCoords(cs[..ci], fi)
    {
      var p := cs[ci];
      var elevation := if |p.rest| > 0 then p.rest[0] else None;
      assert cs[..ci + 1][..ci] == cs[..ci];
      if elevation.None? {
        locs := locs + [Location(p.lat, p.lon, fi, ci)];
      }
      ci := ci + 1;
    }
    assert cs[..ci] == cs;
  }

  /** The zip loop, pair by pair. */
  method WriteBackLoop(fs: seq<Feature>, batch: seq<Location>, es: seq<Option<real>>) returns (r: seq<Feature>)
    requires ValidLocs(fs, batch)
    ensures r == WriteBack(fs, batch, es)
  {
    r := fs;
    var k := 0;
    while k < |batch| && k < |es|
      invariant k <= |batch| && ValidLocs(r, batch)
      invariant WriteFrom(r, batch, es, k) == WriteBack(fs, batch, es)
    {
      var loc := batch[k];
      ghost var before := r;
      if es[k].Some? {
        var p := r[loc.feature].coords[loc.coord];
        r := SetCoord(r, loc.feature, loc.coord, WithElevation(p.lon, p.lat, es[k]));
      }
      assert r == WriteOne(before, loc, es[k]);
      ValidLocsShape(before, r, batch);
      k := k + 1;
    }
  }

  // ---------------------------------------------------------------------
  // The document, updated in place

  class Document {
    /** `geojson_data["features"]`. */
    var features: seq<Feature>

    constructor (fs: seq<Feature>)
      ensures features == fs
    {
      features := fs;
    }

    /** Step 1, the nested selection loop (geojson-processing.py:24-34). */
    method SelectMissing() returns (locs: seq<Location>)
      ensures locs == MissingIn(features)
    {
      var fs := features;
      locs := [];
      var fi := 0;
      while fi < |fs|
        invariant fi <= |fs|
        invariant locs == MissingIn(fs[..fi])
      {
        var f := fs[fi];
        MissingInSnoc(fs, fi);
        if f.id.Some? && 1 <= f.id.value <= 99 {
          var found := MissingPositions(f.coords, fi);
          locs := locs + found;
        }
        fi := fi + 1;
      }
      assert fs[..fi] == fs;
    }

    /** The zip loop of one answered batch (geojson-processing.py:49-54). */
    method ApplyResults(batch: seq<Location>, es: seq<Option<real>>)
      requires ValidLocs(features, batch)
      modifies this
      ensures features == WriteBack(old(features), batch, es)
    {
      features := WriteBackLoop(features, batch, es);
    }

    /** The fetch loop (geojson-processing.py:40-58): batch `i`, numbered
        from 1, is sent, and an answer with results is written back. */
    method FetchAll(batches: seq<seq<Location>>, fetch: (nat, seq<Location>) -> Response)
      requires AllValid(features, batches)
      modifies this
      ensures features == FillBatches(old(features), batches, fetch, 1)
    {
      ghost var target := Remaining(features, batches, fetch, 0);
      assert batches[0..] == batches;
      var i := 1;
      while i <= |batches|
        invariant 1 <= i <= |batches| + 1
        invariant AllValid(features, batches)
        invariant Remaining(features, batches, fetch, i - 1) == target
      {
        var batch := batches[i - 1];
        var response := fetch(i, batch);
        ghost var before := features;
        if response.Results? {
          ApplyResults(batch, response.elevations);
        }
        FillBatchesStep(before, batches, fetch, i - 1, features);
        i := i + 1;
      }
      assert batches[i - 1..] == [];
    }

    /** Steps 1 and 2 of the script (geojson-processing.py:24-62). */
    method FillElevations(fetch: (nat, seq<Location>) -> Response)
      modifies this
      ensures features == FillBatches(old(features), Batches(old(features)), fetch, 1)
    {
      var locs := SelectMissing();
      if |locs| > 0 {
        var batches := ChunkList(locs, BatchSize);
        assert batches == Batches(features);
        FetchAll(batches, fetch);
      }
    }
  }
}

/** Making a baked-in checkerboard transparent: detect its grey, then flood from its cells. */
module FloodFill {
  import opened Common

  const NEUTRAL_TOLERANCE := 6
  const DARKEST_CHECKER := 150
  const CELL_SPREAD := 10

  type Channel = x: int | 0 <= x < 256

  datatype Pixel = Pixel(r: Channel, g: Channel, b: Channel, a: Channel)

  const CLEAR := Pixel(255, 255, 255, 0)

  /** Column and row. */
  type Point = (int, int)

  type Image = map<Point, Pixel>

  /** The pixel's grey level, unless it carries colour. */
  function Neutral(p: Pixel): Option<int> {
    if Max(Max(p.r, p.g), p.b) - Min(Min(p.r, p.g), p.b) >= NEUTRAL_TOLERANCE then None else Some(p.r)
  }

  predicate SeedPixel(p: Pixel, grey: int) {
    Neutral(p).Some? && -CELL_SPREAD <= Neutral(p).value - grey <= CELL_SPREAD
  }

  predicate BackdropPixel(p: Pixel, grey: int) {
    Neutral(p).Some? && Neutral(p).value >= grey - CELL_SPREAD
  }

  /** The checkerboard's own cells, wherever they fall. */
  ghost function SeedPoints(img: Image, grey: int): set<Point> {
    set p | p in img && SeedPixel(img[p], grey)
  }

  ghost function BackdropPoints(img: Image, grey: int): set<Point> {
    set p | p in img && BackdropPixel(img[p], grey)
  }

  /** The four neighbours, in the order the fill queues them. */
  function Neighbours(p: Point): seq<Point> {
    [(p.0 + 1, p.1), (p.0 - 1, p.1), (p.0, p.1 + 1), (p.0, p.1 - 1)]
  }

  /** A path from a seed to `p` through the backdrop, each step between 4-neighbours. */
  ghost predicate PathTo(seeds: set<Point>, back: set<Point>, path: seq<Point>, p: Point) {
    && path != [] && path[0] in seeds && path[|path| - 1] == p
    && (forall i :: 0 <= i < |path| ==> path[i] in back)
    && (forall i, j :: 0 <= i && j == i + 1 < |path| ==> path[j] in Neighbours(path[i]))
  }

  ghost predicate Reachable(seeds: set<Point>, back: set<Point>, p: Point) {
    exists path :: PathTo(seeds, back, path, p)
  }

  /** The points a fill must clear: those reachable in the image as it was given. */
  ghost function Spill(img: Image, grey: int): set<Point> {
    set p | p in img && Reachable(SeedPoints(img, grey), BackdropPoints(img, grey), p)
  }

  /** What cleaning means: the spill turns transparent, all other pixels stay. */
  ghost function Cleaned(img: Image, grey: int): Image {
    map p | p in img :: if p in Spill(img, grey) then CLEAR else img[p]
  }

  lemma ReachableStep(seeds: set<Point>, back: set<Point>, p: Point, q: Point)
    requires Reachable(seeds, back, p) && q in Neighbours(p) && q in back
    ensures Reachable(seeds, back, q)
  {
    var path :| PathTo(seeds, back, path, p);
    assert PathTo(seeds, back, path + [q], q);
  }

  /** A set that holds the seeds and is closed under stepping holds every path. */
  lemma {:induction false} ClosedHoldsPath(seeds: set<Point>, back: set<Point>, filled: set<Point>,
                                           path: seq<Point>, p: Point)
    requires seeds <= filled
    requires forall q, n :: q in filled && n in Neighbours(q) && n in back ==> n in filled
    requires PathTo(seeds, back, path, p)
    ensures p in filled
    decreases |path|
  {
    if |path| > 1 {
      var front := path[..|path| - 1];
      ClosedHoldsPath(seeds, back, filled, front, front[|front| - 1]);
    }
  }

  /** Every seed cell is cleared: a seed is itself backdrop. */
  lemma SeedsAreCleared(img: Image, grey: int)
    ensures SeedPoints(img, grey) <= BackdropPoints(img, grey)
    ensures SeedPoints(img, grey) <= Spill(img, grey)
  {
    forall p | p in SeedPoints(img, grey) ensures p in Spill(img, grey) {
      assert PathTo(SeedPoints(img, grey), BackdropPoints(img, grey), [p], p);
    }
  }

  /** The spill is the least set that holds the seeds and is closed under stepping to
      neighbouring backdrop. */
  lemma SpillIsLeast(img: Image, grey: int, filled: set<Point>)
    ensures forall q, n :: q in Spill(img, grey) && n in Neighbours(q) && n in BackdropPoints(img, grey) ==>
                             n in Spill(img, grey)
    ensures SeedPoints(img, grey) <= filled &&
            (forall q, n :: q in filled && n in Neighbours(q) && n in BackdropPoints(img, grey) ==> n in filled)
            ==> Spill(img, grey) <= filled
  {
    var seeds, back := SeedPoints(img, grey), BackdropPoints(img, grey);
    forall q, n | q in Spill(img, grey) && n in Neighbours(q) && n in back ensures n in Spill(img, grey) {
      ReachableStep(seeds, back, q, n);
    }
    if seeds <= filled && (forall q, n :: q in filled && n in Neighbours(q) && n in back ==> n in filled) {
      forall p | p in Spill(img, grey) ensures p in filled {
        var path :| PathTo(seeds, back, path, p);
        ClosedHoldsPath(seeds, back, filled, path, p);
      }
    }
  }

  // ---- What the fill never touches, and what it always clears ----

  predicate Apart(x: int, y: int) {
    x - y >= 6 || y - x >= 6
  }

  /** Two of the channels diverge: the pixel carries colour. */
  predicate Tinted(p: Pixel) {
    Apart(p.r, p.g) || Apart(p.g, p.b) || Apart(p.r, p.b)
  }

  /** A pixel has a grey level exactly when no two of its channels are six or more apart, and
      the level is then within that of each. */
  lemma NeutralIff(p: Pixel)
    ensures Neutral(p).None? <==> Tinted(p)
    ensures Neutral(p).Some? ==>
              var level := Neutral(p).value;
              level == p.r && !Apart(level, p.g) && !Apart(level, p.b)
  {
  }

  lemma SpillIsBackdrop(img: Image, grey: int, p: Point)
    requires p in Spill(img, grey)
    ensures BackdropPixel(img[p], grey)
  {
    var path :| PathTo(SeedPoints(img, grey), BackdropPoints(img, grey), path, p);
    assert path[|path| - 1] in BackdropPoints(img, grey);
  }

  /** Ink, skin, sky and everything else with colour in it stay as they were, and so does
      everything darker than the backdrop. */
  lemma ArtworkStays(img: Image, grey: int, p: Point)
    requires p in img && (Tinted(img[p]) || img[p].r < grey - 10)
    ensures Cleaned(img, grey)[p] == img[p]
  {
    NeutralIff(img[p]);
    if p in Spill(img, grey) {
      SpillIsBackdrop(img, grey, p);
    }
  }

  /** Every neutral pixel within ten of the grey turns to transparent white, wherever it is. */
  lemma CellsAreCleared(img: Image, grey: int, p: Point)
    requires p in img && !Tinted(img[p]) && -10 <= img[p].r - grey <= 10
    ensures Cleaned(img, grey)[p] == Pixel(255, 255, 255, 0)
  {
    NeutralIff(img[p]);
    SeedsAreCleared(img, grey);
    assert p in SeedPoints(img, grey);
  }

  /** One above, below, left or right of the other. */
  predicate Beside(p: Point, q: Point) {
    (p.0 == q.0 && (p.1 == q.1 + 1 || q.1 == p.1 + 1)) || (p.1 == q.1 && (p.0 == q.0 + 1 || q.0 == p.0 + 1))
  }

  lemma NeighboursIff(p: Point, q: Point)
    ensures q in Neighbours(p) <==> Beside(p, q)
  {
  }

  /** Beside a cleared pixel every neutral pixel light enough is cleared too; so what stops the
      fill is colour or darkness. */
  lemma FillSpreads(img: Image, grey: int, p: Point, q: Point)
    requires p in Spill(img, grey) && q in img && Beside(p, q)
    ensures q in Spill(img, grey) <==> !Tinted(img[q]) && img[q].r >= grey - 10
  {
    NeutralIff(img[q]);
    NeighboursIff(p, q);
    if q in Spill(img, grey) {
      SpillIsBackdrop(img, grey, q);
    }
    if BackdropPixel(img[q], grey) {
      ReachableStep(SeedPoints(img, grey), BackdropPoints(img, grey), p, q);
    }
  }

  lemma PathBefore(seeds: set<Point>, back: set<Point>, path: seq<Point>, p: Point)
    requires PathTo(seeds, back, path, p) && |path| > 1
    ensures PathTo(seeds, back, path[..|path| - 1], path[|path| - 2]) && p in Neighbours(path[|path| - 2])
  {
  }

  /** Nothing else is cleared: a cleared pixel is one of the checkerboard's own or lies beside
      another cleared one. */
  lemma ClearedHasReason(img: Image, grey: int, p: Point)
    requires p in Spill(img, grey)
    ensures || (!Tinted(img[p]) && -10 <= img[p].r - grey <= 10)
            || exists q :: q in Spill(img, grey) && Beside(q, p)
  {
    NeutralIff(img[p]);
    var seeds, back := SeedPoints(img, grey), BackdropPoints(img, grey);
    var path :| PathTo(seeds, back, path, p);
    if |path| > 1 {
      var q := path[|path| - 2];
      PathBefore(seeds, back, path, p);
      NeighboursIff(q, p);
      assert q in Spill(img, grey) && Beside(q, p);
    }
  }

  // ---- Detecting the grey ----

  /** The level a colour counts towards: neutral, not dark enough to be artwork, not white. */
  function Candidate(p: Pixel): Option<int> {
    var value := Neutral(p);
    if value.Some? && DARKEST_CHECKER <= value.value < 250 then value else None
  }

  /** One line of the colour histogram: how many pixels, and the level they count towards. */
  type Entry = (nat, Option<int>)

  /** How many pixels the first n lines count towards a level. */
  function Tally(entries: seq<Entry>, n: nat, level: int): nat
    requires n <= |entries|
  {
    if n == 0 then 0
    else Tally(entries, n - 1, level) + if entries[n - 1].1 == Some(level) then entries[n - 1].0 else 0
  }

  lemma {:induction false} TallyOfAbsent(entries: seq<Entry>, n: nat, level: int)
    requires n <= |entries| && forall j :: 0 <= j < n ==> entries[j].1 != Some(level)
    ensures Tally(entries, n, level) == 0
  {
    if n > 0 {
      TallyOfAbsent(entries, n - 1, level);
    }
  }

  /** No level is commoner than the i-th entry's, nor as common and counted before it. */
  ghost predicate Commonest(entries: seq<Entry>, i: nat)
    requires i < |entries| && entries[i].1.Some?
  {
    forall j :: 0 <= j < |entries| && entries[j].1.Some? ==>
      var mine, other := Tally(entries, |entries|, entries[i].1.value), Tally(entries, |entries|, entries[j].1.value);
      other <= mine && (j < i ==> other < mine || entries[j].1 == entries[i].1)
  }

  /** `first` says where each level of the prefix first appears, and `order` lists the
      levels by that. */
  ghost predicate InOrderOfAppearance(entries: seq<Entry>, n: nat, order: seq<int>, first: map<int, nat>)
    requires n <= |entries|
  {
    && (forall level <- first :: first[level] < n && entries[first[level]].1 == Some(level))
    && (forall j :: 0 <= j < n && entries[j].1.Some? ==>
                      entries[j].1.value in first && first[entries[j].1.value] <= j)
    && (forall k :: 0 <= k < |order| ==> order[k] in first)
    && (forall k, l :: 0 <= k < l < |order| ==> first[order[k]] < first[order[l]])
  }

  lemma NewLevel(entries: seq<Entry>, i: nat, order: seq<int>, first: map<int, nat>, level: int)
    requires i < |entries| && InOrderOfAppearance(entries, i, order, first)
    requires entries[i].1 == Some(level) && level !in first
    ensures InOrderOfAppearance(entries, i + 1, order + [level], first[level := i])
    ensures Tally(entries, i, level) == 0
  {
    TallyOfAbsent(entries, i, level);
    var order', first' := order + [level], first[level := i];
    forall k, l | 0 <= k < l < |order'| ensures first'[order'[k]] < first'[order'[l]] {
      assert order'[k] == order[k];
      assert first'[order'[k]] == first[order[k]];
    }
  }

  lemma OldLevel(entries: seq<Entry>, i: nat, order: seq<int>, first: map<int, nat>)
    requires i < |entries| && InOrderOfAppearance(entries, i, order, first)
    requires entries[i].1.Some? ==> entries[i].1.value in first
    ensures InOrderOfAppearance(entries, i + 1, order, first)
  {
  }

  /** Counting, keeping the levels in the order they were first counted. */
  method CountLevels(entries: seq<Entry>)
    returns (counts: map<int, nat>, order: seq<int>, ghost first: map<int, nat>)
    ensures InOrderOfAppearance(entries, |entries|, order, first)
    ensures forall level :: level in counts <==> level in order
    ensures counts.Keys == first.Keys
    ensures forall level <- counts :: counts[level] == Tally(entries, |entries|, level)
  {
    counts, order, first := map[], [], map[];
    for i := 0 to |entries|
      invariant InOrderOfAppearance(entries, i, order, first)
      invariant forall level :: level in counts <==> level in order
      invariant counts.Keys == first.Keys
      invariant forall level <- counts :: counts[level] == Tally(entries, i, level)
    {
      if entries[i].1.Some? {
        var level := entries[i].1.value;
        if level !in counts {
          NewLevel(entries, i, order, first, level);
          order, first := order + [level], first[level := i];
          counts := counts[level := entries[i].0];
        } else {
          OldLevel(entries, i, order, first);
          counts := counts[level := counts[level] + entries[i].0];
        }
      } else {
        OldLevel(entries, i, order, first);
      }
    }
  }

  /** The commonest level and, among equals, the one counted first. */
  method MostCommon(entries: seq<Entry>) returns (level: Option<int>)
    ensures level.None? <==> forall j :: 0 <= j < |entries| ==> entries[j].1.None?
    ensures level.Some? ==> exists i :: 0 <= i < |entries| && entries[i].1 == level && Commonest(entries, i)
  {
    var counts, order, first := CountLevels(entries);
    if order == [] {
      assert forall level :: level !in counts;
      return None;
    }
    ghost var b := 0;
    var best := order[0];
    for i := 1 to |order|
      invariant 0 <= b < i && best == order[b] && best in counts
      invariant forall j :: 0 <= j < i ==> order[j] in counts && counts[order[j]] <= counts[best]
      invariant forall j :: 0 <= j < i && first[order[j]] < first[best] ==> counts[order[j]] < counts[best]
    {
      if counts[order[i]] > counts[best] {
        best, b := order[i], i;
      }
    }
    level := Some(best);
    assert forall l <- counts :: counts[l] <= counts[best] && (first[l] < first[best] ==> counts[l] < counts[best]) by {
      forall l | l in counts
        ensures counts[l] <= counts[best] && (first[l] < first[best] ==> counts[l] < counts[best])
      {
        var k :| 0 <= k < |order| && order[k] == l;
      }
    }
    assert entries[first[best]].1 == level;
    assert Commonest(entries, first[best]);
  }

  /** The histogram's candidate levels, in the histogram's order. */
  function Entries(colours: seq<(nat, Pixel)>): (entries: seq<Entry>)
    ensures |entries| == |colours|
    ensures forall i :: 0 <= i < |colours| ==> entries[i] == (colours[i].0, Candidate(colours[i].1))
  {
    seq(|colours|, i requires 0 <= i < |colours| => (colours[i].0, Candidate(colours[i].1)))
  }

  /** The checkerboard's grey; None when the asset holds no candidate. `colours` lists the
      image's colours with how often each occurs. */
  method DetectCheckerGrey(colours: seq<(nat, Pixel)>) returns (grey: Option<int>)
    ensures grey.None? <==> forall j :: 0 <= j < |colours| ==> Candidate(colours[j].1).None?
    ensures grey.Some? ==>
              exists i :: 0 <= i < |colours| && Candidate(colours[i].1) == grey && Commonest(Entries(colours), i)
  {
    grey := MostCommon(Entries(colours));
  }

  /** A detected grey is some colour's own level, so an image showing that colour has a
      seed, and the fill clears at least that cell. */
  lemma DetectedGreyIsSeeded(img: Image, grey: int, p: Point)
    requires p in img && Candidate(img[p]) == Some(grey)
    ensures p in Spill(img, grey)
  {
    SeedsAreCleared(img, grey);
    assert p in SeedPoints(img, grey);
  }

  // ---- The fill ----

  ghost function Coordinates(width: nat, height: nat): (points: set<Point>)
    ensures forall p :: p in points <==> 0 <= p.0 < width && 0 <= p.1 < height
  {
    set x, y | 0 <= x < width && 0 <= y < height :: (x, y)
  }

  /** A grid stored by row, as an image. */
  ghost function Picture(pixels: array2<Pixel>): Image
    reads pixels
  {
    map p | p in Coordinates(pixels.Length1, pixels.Length0) :: pixels[p.1, p.0]
  }

  /** Where the search stands: `done` are the cleared points, `visited` the seen ones. */
  ghost predicate Searching(points: set<Point>, seeds: set<Point>, back: set<Point>, queue: seq<Point>,
                            visited: set<Point>, done: set<Point>) {
    && done <= visited <= points
    && (forall p <- visited :: p in done <==> p in back)
    && (forall p <- done :: Reachable(seeds, back, p))
    && (forall p <- queue :: p in back ==> Reachable(seeds, back, p))
    && (forall p <- seeds :: p in visited || p in queue)
    && (forall p, n :: p in done && n in Neighbours(p) && n in points ==> n in visited || n in queue)
  }

  lemma SearchStarts(points: set<Point>, seeds: set<Point>, back: set<Point>, queue: seq<Point>)
    requires seeds <= back && forall p :: p in queue <==> p in seeds
    ensures Searching(points, seeds, back, queue, {}, {})
  {
    forall p | p in queue ensures Reachable(seeds, back, p) {
      assert PathTo(seeds, back, [p], p);
    }
  }

  lemma SearchFinished(points: set<Point>, seeds: set<Point>, back: set<Point>, visited: set<Point>, done: set<Point>)
    requires Searching(points, seeds, back, [], visited, done) && seeds <= back <= points
    ensures forall p :: p in done <==> Reachable(seeds, back, p)
  {
    forall p | Reachable(seeds, back, p) ensures p in done {
      var path :| PathTo(seeds, back, path, p);
      ClosedHoldsPath(seeds, back, done, path, p);
    }
  }

  /** Taking one point off the queue: skip it, or visit it and maybe clear it. */
  lemma SearchStep(points: set<Point>, seeds: set<Point>, back: set<Point>, queue: seq<Point>,
                   visited: set<Point>, done: set<Point>)
    requires queue != [] && Searching(points, seeds, back, queue, visited, done) && seeds <= back <= points
    ensures var p, rest := queue[0], queue[1..];
            if p !in points || p in visited then Searching(points, seeds, back, rest, visited, done)
            else if p !in back then Searching(points, seeds, back, rest, visited + {p}, done)
            else Searching(points, seeds, back, rest + Neighbours(p), visited + {p}, done + {p})
  {
    var p, rest := queue[0], queue[1..];
    forall q | q in queue ensures q == p || q in rest {
      assert queue == [p] + rest;
    }
    if p in points && p !in visited && p in back {
      forall n | n in Neighbours(p) && n in back ensures Reachable(seeds, back, n) {
        ReachableStep(seeds, back, p, n);
      }
    }
  }

  /** Every seed, row by row. */
  method Seeds(pixels: array2<Pixel>, grey: int) returns (queue: seq<Point>)
    ensures forall p :: p in queue <==> p in SeedPoints(Picture(pixels), grey)
  {
    ghost var seeds := SeedPoints(Picture(pixels), grey);
    queue := [];
    for y := 0 to pixels.Length0
      invariant forall p :: p in queue <==> p in seeds && p.1 < y
    {
      for x := 0 to pixels.Length1
        invariant forall p :: p in queue <==> p in seeds && (p.1 < y || (p.1 == y && p.0 < x))
      {
        if SeedPixel(pixels[y, x], grey) {
          queue := queue + [(x, y)];
        }
      }
    }
  }

  /** The grids agree with the search: what is seen, and what is already cleared. */
  ghost predicate GridsMatch(img: Image, pixels: array2<Pixel>, seen: array2<bool>,
                             visited: set<Point>, done: set<Point>)
    reads pixels, seen
  {
    && seen.Length0 == pixels.Length0 && seen.Length1 == pixels.Length1
    && (forall p :: p in img <==> 0 <= p.0 < pixels.Length1 && 0 <= p.1 < pixels.Length0)
    && (forall p <- img ::
          && (seen[p.1, p.0] <==> p in visited)
          && pixels[p.1, p.0] == if p in done then CLEAR else img[p])
  }

  /** Handle one point taken off the queue; the grid is read before it is rewritten. */
  method Visit(pixels: array2<Pixel>, seen: array2<bool>, grey: int, p: Point, ghost img: Image,
               ghost visited: set<Point>, ghost done: set<Point>) returns (cleared: bool)
    requires GridsMatch(img, pixels, seen, visited, done) && done <= visited
    modifies pixels, seen
    ensures cleared <==> p in img && p !in visited && p in BackdropPoints(img, grey)
    ensures GridsMatch(img, pixels, seen, if p in img then visited + {p} else visited,
                       if cleared then done + {p} else done)
  {
    var (x, y) := p;
    if !(0 <= x < pixels.Length1 && 0 <= y < pixels.Length0) || seen[y, x] {
      assert p in img ==> visited + {p} == visited;
      return false;
    }
    seen[y, x] := true;
    if !BackdropPixel(pixels[y, x], grey) {
      return false;
    }
    pixels[y, x] := CLEAR;
    cleared := true;
  }

  /** Clear the backdrop of a grid in place, given the detected grey. */
  method Fill(pixels: array2<Pixel>, grey: int) returns (cleared: nat)
    modifies pixels
    ensures Picture(pixels) == Cleaned(old(Picture(pixels)), grey)
    ensures cleared == |Spill(old(Picture(pixels)), grey)|
  {
    ghost var img := Picture(pixels);
    var seen := new bool[pixels.Length0, pixels.Length1]((y, x) => false);
    var queue := Seeds(pixels, grey);
    cleared := Flood(pixels, seen, grey, queue, img);
  }

  /** One turn of the search: take a point off the queue, and queue what it uncovers. */
  method Turn(pixels: array2<Pixel>, seen: array2<bool>, grey: int, queue: seq<Point>, ghost img: Image,
              ghost back: set<Point>, ghost visited: set<Point>, ghost done: set<Point>)
    returns (queue': seq<Point>, fill: bool, ghost visited': set<Point>, ghost done': set<Point>)
    requires queue != [] && back == BackdropPoints(img, grey)
    requires GridsMatch(img, pixels, seen, visited, done) && done <= visited
    modifies pixels, seen
    ensures GridsMatch(img, pixels, seen, visited', done')
    ensures |done'| == |done| + if fill then 1 else 0
    ensures var p, rest := queue[0], queue[1..];
            if p !in img.Keys || p in visited then
              queue' == rest && visited' == visited && done' == done && !fill
            else if p !in back then queue' == rest && visited' == visited + {p} && done' == done && !fill
            else queue' == rest + Neighbours(p) && visited' == visited + {p} && done' == done + {p} && fill
  {
    var p := queue[0];
    queue' := queue[1..];
    fill := Visit(pixels, seen, grey, p, img, visited, done);
    visited', done' := visited, done;
    if p in img {
      visited' := visited + {p};
      if p in visited {
        assert visited' == visited;
      }
    }
    if fill {
      queue' := queue' + Neighbours(p);
      done' := done + {p};
    }
  }

  lemma MatchingPicture(img: Image, pixels: array2<Pixel>, seen: array2<bool>, visited: set<Point>, done: set<Point>)
    requires GridsMatch(img, pixels, seen, visited, done)
    ensures Picture(pixels) == map p | p in img :: if p in done then CLEAR else img[p]
  {
    assert Picture(pixels).Keys == img.Keys;
  }

  method Flood(pixels: array2<Pixel>, seen: array2<bool>, grey: int, seeds: seq<Point>, ghost img: Image)
    returns (cleared: nat)
    requires GridsMatch(img, pixels, seen, {}, {})
    requires forall p :: p in seeds <==> p in SeedPoints(img, grey)
    modifies pixels, seen
    ensures Picture(pixels) == Cleaned(img, grey) && cleared == |Spill(img, grey)|
  {
    ghost var points, starts, back := img.Keys, SeedPoints(img, grey), BackdropPoints(img, grey);
    var queue := seeds;
    ghost var visited: set<Point>, done: set<Point> := {}, {};
    SeedsAreCleared(img, grey);
    SearchStarts(points, starts, back, queue);
    cleared := 0;
    while queue != []
      invariant GridsMatch(img, pixels, seen, visited, done)
      invariant Searching(points, starts, back, queue, visited, done)
      invariant cleared == |done|
      decreases points - visited, |queue|
    {
      SearchStep(points, starts, back, queue, visited, done);
      var fill: bool;
      queue, fill, visited, done := Turn(pixels, seen, grey, queue, img, back, visited, done);
      if fill {
        cleared := cleared + 1;
      }
    }
    SearchFinished(points, starts, back, visited, done);
    assert done == Spill(img, grey);
    MatchingPicture(img, pixels, seen, visited, done);
  }

  // ---- The whole script ----

  predicate SameColour(p: Pixel, q: Pixel) {
    p.r == q.r && p.g == q.g && p.b == q.b
  }

  ghost function PixelsOfColour(img: Image, colour: Pixel): set<Point> {
    set p | p in img && SameColour(img[p], colour)
  }

  /** The pixels that count towards a grey level. */
  ghost function PixelsAtLevel(img: Image, level: int): set<Point> {
    set p | p in img && Candidate(img[p]) == Some(level)
  }

  /** One line of the histogram is right: the colour occurs, exactly as often as it says. */
  ghost predicate Counted(img: Image, line: (nat, Pixel)) {
    line.0 == |PixelsOfColour(img, line.1)| && line.0 > 0
  }

  ghost predicate Listed(colours: seq<(nat, Pixel)>, p: Pixel) {
    exists i :: 0 <= i < |colours| && SameColour(p, colours[i].1)
  }

  /** The image's colours, each once, with the number of pixels that show it. */
  ghost predicate Histogram(img: Image, colours: seq<(nat, Pixel)>) {
    && (forall p {:trigger Listed(colours, img[p])} :: p in img ==> Listed(colours, img[p]))
    && (forall i, j :: 0 <= i < j < |colours| ==> !SameColour(colours[i].1, colours[j].1))
    && (forall i {:trigger Counted(img, colours[i])} :: 0 <= i < |colours| ==> Counted(img, colours[i]))
  }

  ghost function PixelsAmong(img: Image, colours: seq<(nat, Pixel)>, n: nat, level: int): set<Point>
    requires n <= |colours|
  {
    set p | p in PixelsAtLevel(img, level) && exists i :: 0 <= i < n && SameColour(img[p], colours[i].1)
  }

  lemma AmongStep(img: Image, colours: seq<(nat, Pixel)>, n: nat, level: int)
    requires n < |colours|
    ensures PixelsAmong(img, colours, n + 1, level) == PixelsAmong(img, colours, n, level) +
            if Candidate(colours[n].1) == Some(level) then PixelsOfColour(img, colours[n].1) else {}
  {
    var all, now := PixelsAmong(img, colours, n, level), PixelsAmong(img, colours, n + 1, level);
    var mine := PixelsOfColour(img, colours[n].1);
    forall p | p in mine ensures Candidate(img[p]) == Candidate(colours[n].1) {
    }
    forall p | p in now ensures p in all || (Candidate(colours[n].1) == Some(level) && p in mine) {
      var i :| 0 <= i < n + 1 && SameColour(img[p], colours[i].1);
      if i == n {
        assert p in mine;
      }
    }
    forall p | p in all ensures p in now {
      var i :| 0 <= i < n && SameColour(img[p], colours[i].1);
      assert 0 <= i < n + 1;
    }
    forall p | Candidate(colours[n].1) == Some(level) && p in mine ensures p in now {
      assert SameColour(img[p], colours[n].1);
    }
  }

  lemma AmongDisjoint(img: Image, colours: seq<(nat, Pixel)>, n: nat, level: int)
    requires Histogram(img, colours) && n < |colours|
    ensures PixelsAmong(img, colours, n, level) !! PixelsOfColour(img, colours[n].1)
  {
    forall p | p in PixelsAmong(img, colours, n, level) ensures p !in PixelsOfColour(img, colours[n].1) {
      var i :| 0 <= i < n && SameColour(img[p], colours[i].1);
      assert !SameColour(colours[i].1, colours[n].1);
    }
  }

  lemma AmongGrows(img: Image, colours: seq<(nat, Pixel)>, n: nat, level: int)
    requires Histogram(img, colours) && n < |colours|
    ensures |PixelsAmong(img, colours, n + 1, level)| == |PixelsAmong(img, colours, n, level)| +
            if Candidate(colours[n].1) == Some(level) then colours[n].0 else 0
  {
    AmongStep(img, colours, n, level);
    AmongDisjoint(img, colours, n, level);
    assert Counted(img, colours[n]);
  }

  lemma {:induction false} TallyOfPrefix(img: Image, colours: seq<(nat, Pixel)>, n: nat, level: int)
    requires Histogram(img, colours) && n <= |colours|
    ensures Tally(Entries(colours), n, level) == |PixelsAmong(img, colours, n, level)|
  {
    if n == 0 {
      assert PixelsAmong(img, colours, 0, level) == {};
    } else {
      TallyOfPrefix(img, colours, n - 1, level);
      AmongGrows(img, colours, n - 1, level);
    }
  }

  /** The tally of a level is the number of pixels at that level. */
  lemma TallyCountsPixels(img: Image, colours: seq<(nat, Pixel)>, level: int)
    requires Histogram(img, colours)
    ensures Tally(Entries(colours), |colours|, level) == |PixelsAtLevel(img, level)|
  {
    TallyOfPrefix(img, colours, |colours|, level);
    var among := PixelsAmong(img, colours, |colours|, level);
    forall p | p in PixelsAtLevel(img, level) ensures p in among {
      assert Listed(colours, img[p]);
    }
    assert among == PixelsAtLevel(img, level);
  }

  /** The detected grey is the level most of the image's candidate pixels show. */
  ghost predicate DominantGrey(img: Image, grey: int) {
    && PixelsAtLevel(img, grey) != {}
    && forall level :: |PixelsAtLevel(img, level)| <= |PixelsAtLevel(img, grey)|
  }

  lemma DetectedIsDominant(img: Image, colours: seq<(nat, Pixel)>, i: nat)
    requires Histogram(img, colours) && i < |colours|
    requires Candidate(colours[i].1).Some? && Commonest(Entries(colours), i)
    ensures DominantGrey(img, Candidate(colours[i].1).value)
  {
    var grey := Candidate(colours[i].1).value;
    TallyCountsPixels(img, colours, grey);
    assert Counted(img, colours[i]);
    var p :| p in PixelsOfColour(img, colours[i].1);
    assert Candidate(img[p]) == Some(grey);
    assert p in PixelsAtLevel(img, grey);
    forall level ensures |PixelsAtLevel(img, level)| <= |PixelsAtLevel(img, grey)| {
      if PixelsAtLevel(img, level) != {} {
        var q :| q in PixelsAtLevel(img, level);
        assert Listed(colours, img[q]);
        var j :| 0 <= j < |colours| && SameColour(img[q], colours[j].1);
        assert Candidate(colours[j].1) == Some(level);
        assert Entries(colours)[j].1 == Some(level);
        TallyCountsPixels(img, colours, level);
      }
    }
  }

  /** Clean a picture in place: refuse one without checker grey, else clear exactly the
      spill of the dominant grey, which is never empty. */
  method Clean(pixels: array2<Pixel>, colours: seq<(nat, Pixel)>) returns (cleared: Option<nat>)
    requires Histogram(Picture(pixels), colours)
    modifies pixels
    ensures cleared.None? <==> forall level :: PixelsAtLevel(old(Picture(pixels)), level) == {}
    ensures cleared.None? ==> Picture(pixels) == old(Picture(pixels))
    ensures Picture(pixels).Keys == old(Picture(pixels)).Keys
    ensures forall p <- Picture(pixels) :: Tinted(old(Picture(pixels))[p]) || old(Picture(pixels))[p].r < 140 ==>
              Picture(pixels)[p] == old(Picture(pixels))[p]
    ensures cleared.Some? ==>
              && cleared.value > 0
              && exists grey :: && DominantGrey(old(Picture(pixels)), grey) && 150 <= grey < 250
                                && Picture(pixels) == Cleaned(old(Picture(pixels)), grey)
                                && cleared.value == |Spill(old(Picture(pixels)), grey)|
  {
    ghost var img := Picture(pixels);
    var grey := DetectCheckerGrey(colours);
    if grey.None? {
      NoCandidates(img, colours);
      return None;
    }
    ghost var i :| 0 <= i < |colours| && Candidate(colours[i].1) == grey && Commonest(Entries(colours), i);
    DetectedIsDominant(img, colours, i);
    ghost var p :| p in PixelsAtLevel(img, grey.value);
    DetectedGreyIsSeeded(img, grey.value, p);
    assert PixelsAtLevel(img, grey.value) != {};
    CandidateIff(img[p]);
    var n := Fill(pixels, grey.value);
    forall q | q in img && (Tinted(img[q]) || img[q].r < 140) ensures Cleaned(img, grey.value)[q] == img[q] {
      ArtworkStays(img, grey.value, q);
    }
    cleared := Some(n);
  }

  /** A pixel counts towards a level exactly when it is neutral and its level is 150 to 249. */
  lemma CandidateIff(p: Pixel)
    ensures Candidate(p).Some? <==> !Tinted(p) && 150 <= p.r <= 249
    ensures Candidate(p).Some? ==> Candidate(p).value == p.r
  {
    NeutralIff(p);
  }

  lemma NoCandidates(img: Image, colours: seq<(nat, Pixel)>)
    requires Histogram(img, colours)
    requires forall j :: 0 <= j < |colours| ==> Candidate(colours[j].1).None?
    ensures forall level :: PixelsAtLevel(img, level) == {}
  {
    forall p | p in img ensures Candidate(img[p]).None? {
      assert Listed(colours, img[p]);
      var i :| 0 <= i < |colours| && SameColour(img[p], colours[i].1);
      assert Candidate(colours[i].1) == Candidate(img[p]);
    }
  }
}

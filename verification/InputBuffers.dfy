/** The buffered input adapter `istreambuf`: it reads characters from a source in chunks and keeps the
    last ones read, so that they can be put back.  What the reader sees must be the text of the
    source, whatever the chunks.

    The buffer is first a value, a window on the text, and the laws are lemmas about windows; class
    IStreamBuf keeps the same window in an array and a few pointers. */
module InputBuffers {
  import opened Integers
  import opened Results

  // ------------------------------------------------------------------ the source

  // How one read ends: with up to `size` characters, or with none, after which the memory it was
  // given may hold garbage.
  datatype Delivery = Chunk(size: nat) | Nothing(garbage: seq<char>)

  /** The reading half of a reader_writer, with every list of deliveries possible.  `stalled` says
      that some read has brought nothing, `spoilt` that one has left garbage; later reads may
      succeed again. */
  datatype Feed = Feed(
    deliveries: seq<Delivery>,
    delivered: seq<char>,
    rest: seq<char>,
    stalled: bool,
    spoilt: bool)

  // How many characters the next read brings, if there is room for them.
  function Supply(f: Feed, room: nat): (n: nat)
    ensures n <= room && n <= |f.rest|
  {
    if f.deliveries != [] && f.deliveries[0].Chunk? then Min(f.deliveries[0].size, Min(room, |f.rest|)) else 0
  }

  // What it writes to the memory.
  function Brought(f: Feed, room: nat): (text: seq<char>)
    ensures |text| <= room
    ensures Supply(f, room) > 0 ==> |text| == Supply(f, room)
  {
    if Supply(f, room) > 0 then f.rest[..Supply(f, room)]
    else if f.deliveries != [] && f.deliveries[0].Nothing? then
      f.deliveries[0].garbage[..Min(room, |f.deliveries[0].garbage|)]
    else []
  }

  function AfterRead(f: Feed, room: nat): Feed {
    var n := Supply(f, room);
    Feed(if f.deliveries == [] then [] else f.deliveries[1..],
         f.delivered + f.rest[..n], f.rest[n..],
         f.stalled || n == 0, f.spoilt || (n == 0 && Brought(f, room) != []))
  }

  lemma NothingIsLost(f: Feed, room: nat)
    ensures AfterRead(f, room).delivered + AfterRead(f, room).rest == f.delivered + f.rest
  {
  }

  // ------------------------------------------------------------------ memory and text

  function Last(text: seq<char>, n: int): seq<char>
    requires 0 <= n <= |text|
  {
    text[|text| - n..]
  }

  // Memory after the n characters in front of gptr have been moved in front of back.
  function Slid(memory: seq<char>, gptr: int, back: int, n: int): (m: seq<char>)
    requires 0 <= n <= back <= |memory| && n <= gptr <= |memory|
    ensures |m| == |memory|
  {
    seq(|memory|, i requires 0 <= i < |memory| => if back - n <= i < back then memory[i + (gptr - back)] else memory[i])
  }

  // Memory after text has been read into it.
  function Overwritten(memory: seq<char>, from: int, text: seq<char>): (m: seq<char>)
    requires 0 <= from && from + |text| <= |memory|
    ensures |m| == |memory|
  {
    seq(|memory|, i requires 0 <= i < |memory| => if from <= i < from + |text| then text[i - from] else memory[i])
  }

  // What a refill slides: as much as the putback area holds, and no more than was read.
  function Kept(gptr: int, eback: int, back: int): int { Min(gptr - eback, back) }

  // Memory that holds the end of `before` and then a chunk holds the end of both together.
  lemma LastOfBoth(memory: seq<char>, before: seq<char>, chunk: seq<char>, from: nat, back: nat)
    requires from <= back <= |memory| && back - from <= |before| && back + |chunk| <= |memory|
    requires memory[from..back] == Last(before, back - from) && memory[back..back + |chunk|] == chunk
    ensures memory[from..back + |chunk|] == Last(before + chunk, back + |chunk| - from)
  {
    assert memory[from..back + |chunk|] == memory[from..back] + chunk;
    assert Last(before + chunk, back + |chunk| - from) == Last(before, back - from) + chunk;
  }

  // Of what is slid, the last characters are right.
  lemma SlidLast(memory: seq<char>, text: seq<char>, sure: nat, gptr: nat, back: nat, n: nat, good: nat)
    requires good <= n <= back <= |memory| && n <= gptr <= |memory| && sure <= gptr && good <= gptr - sure <= |text|
    requires memory[sure..gptr] == Last(text, gptr - sure)
    ensures Slid(memory, gptr, back, n)[back - good..back] == Last(text, good)
  {
    assert Slid(memory, gptr, back, n)[back - good..back] == memory[gptr - good..gptr];
    assert memory[gptr - good..gptr] == memory[sure..gptr][gptr - sure - good..];
  }

  lemma BehindSlid(memory: seq<char>, gptr: int, back: int, n: int, text: seq<char>)
    requires 0 <= n <= back <= |memory| && n <= gptr <= |memory| && back + |text| <= |memory|
    ensures var slid := Slid(memory, gptr, back, n);
      Overwritten(slid, back, text)[..back] == slid[..back] && Overwritten(slid, back, text)[back..back + |text|] == text
    ensures text == [] ==> Overwritten(Slid(memory, gptr, back, n), back, text)[back..] == memory[back..]
  {
  }

  // After a refill the chunk and the last `good` characters before it show the text.
  lemma ChunkShown(memory: seq<char>, text: seq<char>, chunk: seq<char>, sure: nat, gptr: nat, back: nat, n: nat, good: nat)
    requires good <= n <= back && back + |chunk| <= |memory| && n <= gptr <= |memory|
    requires sure <= gptr && good <= gptr - sure <= |text|
    requires memory[sure..gptr] == Last(text, gptr - sure)
    ensures Overwritten(Slid(memory, gptr, back, n), back, chunk)[back - good..back + |chunk|]
            == Last(text + chunk, good + |chunk|)
  {
    var slid := Slid(memory, gptr, back, n);
    var m := Overwritten(slid, back, chunk);
    SlidLast(memory, text, sure, gptr, back, n, good);
    BehindSlid(memory, gptr, back, n, chunk);
    assert m[back - good..back] == m[..back][back - good..] == slid[..back][back - good..];
    LastOfBoth(m, text, chunk, back - good, back);
  }

  lemma SlidNowhere(memory: seq<char>, gptr: nat, back: nat, eback: nat)
    requires eback <= back <= gptr <= |memory| && (eback == back || gptr == back)
    ensures Slid(memory, gptr, back, Kept(gptr, eback, back))[eback..gptr] == memory[eback..gptr]
  {
  }

  /** If the read behind a slide brings nothing, the pointers stay and the slide is not undone.  The
      window then still shows what was read, whatever that was, exactly while the first chunk is
      held, with nothing in front of it; or before there is any chunk. */
  lemma FailedReadKeepsWindow(eback: nat, back: nat, gptr: nat, length: nat)
    requires eback <= back <= gptr <= length
    ensures (forall memory: seq<char> :: |memory| == length ==>
               Slid(memory, gptr, back, Kept(gptr, eback, back))[eback..gptr] == memory[eback..gptr])
       <==> eback == back || gptr == back
  {
    var n := Kept(gptr, eback, back);
    if eback == back || gptr == back {
      forall memory: seq<char> | |memory| == length
        ensures Slid(memory, gptr, back, n)[eback..gptr] == memory[eback..gptr]
      {
        SlidNowhere(memory, gptr, back, eback);
      }
    } else {
      var memory := seq(length, i => if i == eback then 'x' else 'y');
      assert Slid(memory, gptr, back, n)[eback] == memory[eback + (gptr - back)];
      assert Slid(memory, gptr, back, n)[eback..gptr][0] != memory[eback..gptr][0];
    }
  }

  // ------------------------------------------------------------------ the window

  /** The first `back` cells of the memory are the putback area.  From cell `sure` on, which the
      program does not know, the memory is certain to show the text of the source. */
  datatype Window = Window(
    back: nat,
    memory: seq<char>,
    eback: int,
    gptr: int,
    egptr: int,
    sure: int,
    feed: Feed)

  predicate InBounds(w: Window) {
    && 1 <= w.back < |w.memory|
    && 0 <= w.eback <= w.back <= w.egptr <= |w.memory|
    && w.eback <= w.gptr <= w.egptr
  }

  // Positions in the source: of the chunk held now, of the next character to read (the number of
  // characters read and not put back), of the first one that can be gone back to, and of the first
  // one that is sure to be right.
  function ChunkStart(w: Window): int { |w.feed.delivered| - (w.egptr - w.back) }

  function Cursor(w: Window): int { |w.feed.delivered| - (w.egptr - w.gptr) }

  function Earliest(w: Window): int { |w.feed.delivered| - (w.egptr - w.eback) }

  function Sure(w: Window): int { |w.feed.delivered| - (w.egptr - w.sure) }

  // The putback area is full, or reaches back to the beginning of the source.
  predicate Placed(w: Window) {
    && InBounds(w) && ChunkStart(w) >= 0
    && w.back - w.eback == Min(w.back, ChunkStart(w))
  }

  // The memory shows the text from cell `sure` on.
  predicate Shows(w: Window)
    requires InBounds(w)
  {
    && 0 <= w.sure <= w.egptr && w.egptr - w.sure <= |w.feed.delivered|
    && w.memory[w.sure..w.egptr] == Last(w.feed.delivered, w.egptr - w.sure)
  }

  /** The window shows the text from `Sure` on.  That is everything from `Earliest` on until a read
      has brought nothing, and at least the chunk until one has left garbage. */
  predicate Faithful(w: Window) {
    && Placed(w)
    && w.eback <= w.sure <= w.egptr
    && Shows(w)
    && (!w.feed.stalled ==> w.sure == w.eback)
    && (!w.feed.spoilt ==> w.sure <= w.back)
  }

  // The next character is certain to be the right one.
  predicate Certain(w: Window) { w.gptr >= w.sure }

  function Init(text: seq<char>, deliveries: seq<Delivery>, memory: seq<char>, back: nat): Window {
    Window(back, memory, back, back, back, back, Feed(deliveries, [], text, false, false))
  }

  // The memory and the source after sliding n characters and reading behind them.
  function Loaded(w: Window, n: int): Window
    requires 0 <= n <= w.back <= |w.memory| && n <= w.gptr <= |w.memory|
  {
    var room := |w.memory| - w.back;
    w.(memory := Overwritten(Slid(w.memory, w.gptr, w.back, n), w.back, Brought(w.feed, room)),
       feed := AfterRead(w.feed, room))
  }

  // The pointers then: at what was slid and the `got` characters behind it, or where they were.
  function Pointed(w: Window, n: int, got: int): Window {
    if got > 0 then
      w.(eback := w.back - n, gptr := w.back, egptr := w.back + got, sure := w.back - Min(n, w.egptr - w.sure))
    else
      w.(sure := if w.feed.spoilt then w.egptr else w.back)
  }

  // Refilling a window that is read to its end.
  function Refilled(w: Window): Window
    requires InBounds(w) && w.gptr == w.egptr
  {
    var n := Kept(w.gptr, w.eback, w.back);
    Pointed(Loaded(w, n), n, Supply(w.feed, |w.memory| - w.back))
  }

  lemma RefillPlaces(w: Window)
    requires Placed(w) && w.eback <= w.sure <= w.egptr && w.gptr == w.egptr
    ensures var v := Refilled(w); Placed(v) && Cursor(v) == Cursor(w) && v.eback <= v.sure <= v.gptr
  {
  }

  lemma ShownBy(v: Window, text: seq<char>, chunk: seq<char>, good: nat)
    requires InBounds(v) && good <= v.back && good <= |text| && v.back + |chunk| <= |v.memory|
    requires v.sure == v.back - good && v.egptr == v.back + |chunk| && v.feed.delivered == text + chunk
    requires v.memory[v.back - good..v.back + |chunk|] == Last(text + chunk, good + |chunk|)
    ensures Shows(v)
  {
  }

  lemma ChunkShownBy(v: Window, memory: seq<char>, text: seq<char>, chunk: seq<char>, sure: nat, gptr: nat, n: nat, good: nat)
    requires InBounds(v) && good <= n <= v.back && v.back + |chunk| <= |memory| && n <= gptr <= |memory|
    requires sure <= gptr && good <= gptr - sure <= |text| && memory[sure..gptr] == Last(text, gptr - sure)
    requires v.sure == v.back - good && v.egptr == v.back + |chunk| && v.feed.delivered == text + chunk
    requires v.memory == Overwritten(Slid(memory, gptr, v.back, n), v.back, chunk)
    ensures Shows(v)
  {
    ChunkShown(memory, text, chunk, sure, gptr, v.back, n, good);
    ShownBy(v, text, chunk, good);
  }

  // What a successful refill makes of the fields.
  lemma ReadFields(w: Window)
    requires Faithful(w) && w.gptr == w.egptr && Supply(w.feed, |w.memory| - w.back) > 0
    ensures var v, n := Refilled(w), Kept(w.gptr, w.eback, w.back);
      var chunk := Brought(w.feed, |w.memory| - w.back);
      && v.back == w.back && v.sure == v.back - Min(n, w.egptr - w.sure) && v.egptr == v.back + |chunk|
      && v.memory == Overwritten(Slid(w.memory, w.gptr, w.back, n), w.back, chunk)
      && v.feed.delivered == w.feed.delivered + chunk
  {
  }

  lemma SameTail(memory: seq<char>, memory': seq<char>, text: seq<char>, sure: nat, back: nat, end: nat)
    requires sure <= back <= end <= |memory| == |memory'| && end - sure <= |text|
    requires memory[sure..end] == Last(text, end - sure) && memory'[back..] == memory[back..]
    ensures memory'[back..end] == Last(text, end - back)
  {
    assert memory'[back..end] == memory'[back..][..end - back];
    assert memory[back..][..end - back] == memory[sure..end][back - sure..];
  }

  lemma NothingShows(w: Window)
    requires Faithful(w) && w.gptr == w.egptr && InBounds(Refilled(w)) && Supply(w.feed, |w.memory| - w.back) == 0
    ensures Shows(Refilled(w))
  {
    var v := Refilled(w);
    assert v.feed.delivered == w.feed.delivered;
    if !v.feed.spoilt {
      var n, text := Kept(w.gptr, w.eback, w.back), Brought(w.feed, |w.memory| - w.back);
      BehindSlid(w.memory, w.gptr, w.back, n, text);
      SameTail(w.memory, v.memory, w.feed.delivered, w.sure, w.back, w.egptr);
    }
  }

  lemma RefillFlags(w: Window)
    requires Faithful(w) && w.gptr == w.egptr
    ensures !Refilled(w).feed.stalled ==> Refilled(w).sure == Refilled(w).eback
    ensures !Refilled(w).feed.spoilt ==> Refilled(w).sure <= w.back
  {
  }

  lemma ReadShows(w: Window)
    requires Faithful(w) && w.gptr == w.egptr && InBounds(Refilled(w)) && Supply(w.feed, |w.memory| - w.back) > 0
    ensures Shows(Refilled(w))
  {
    ReadFields(w);
    var n, chunk := Kept(w.gptr, w.eback, w.back), Brought(w.feed, |w.memory| - w.back);
    ChunkShownBy(Refilled(w), w.memory, w.feed.delivered, chunk, w.sure, w.gptr, n, Min(n, w.egptr - w.sure));
  }

  lemma RefillShows(w: Window)
    requires Faithful(w) && w.gptr == w.egptr && InBounds(Refilled(w))
    ensures Shows(Refilled(w))
  {
    if Supply(w.feed, |w.memory| - w.back) > 0 {
      ReadShows(w);
    } else {
      NothingShows(w);
    }
  }

  /** A refill keeps the window right and does not move the reader, whether or not the source has
      anything.  While only the first chunk has been read, a failed read that leaves no garbage
      spoils nothing. */
  lemma RefillKeepsFaithful(w: Window)
    requires Faithful(w) && w.gptr == w.egptr
    ensures Faithful(Refilled(w)) && Certain(Refilled(w)) && Cursor(Refilled(w)) == Cursor(w)
    ensures ChunkStart(Refilled(w)) == 0 && !Refilled(w).feed.spoilt ==> Sure(Refilled(w)) == Earliest(Refilled(w))
  {
    RefillPlaces(w);
    RefillFlags(w);
    RefillShows(w);
  }

  /** The same for windows, as a position in the source: a failed read that leaves the memory alone
      keeps the window right, whatever it shows, exactly if the chunk held is the first or empty. */
  lemma FailedReadKeepsText(w: Window)
    requires Placed(w) && w.gptr == w.egptr
    ensures (forall memory: seq<char> :: |memory| == |w.memory| ==>
               Slid(memory, w.gptr, w.back, Kept(w.gptr, w.eback, w.back))[w.eback..w.gptr] == memory[w.eback..w.gptr])
       <==> ChunkStart(w) == 0 || ChunkStart(w) == Cursor(w)
  {
    FailedReadKeepsWindow(w.eback, w.back, w.gptr, |w.memory|);
  }

  // Reading forward always leaves a putback area of `back` characters, or of all there were.
  lemma WindowIsWideEnough(w: Window)
    requires Faithful(w) && Cursor(w) >= ChunkStart(w)
    ensures Cursor(w) - Earliest(w) >= Min(w.back, Cursor(w))
  {
  }

  // The character at the reader's position.
  lemma NextIsRight(w: Window, k: int)
    requires Faithful(w) && w.sure <= k < w.egptr
    ensures 0 <= |w.feed.delivered| - (w.egptr - k) < |w.feed.delivered|
    ensures w.memory[k] == w.feed.delivered[|w.feed.delivered| - (w.egptr - k)]
  {
    assert w.memory[w.sure..w.egptr][k - w.sure] == w.memory[k];
  }

  // What `underflow` leaves: the same window if there is something to read in it.
  function Filled(w: Window): Window
    requires InBounds(w)
  {
    if w.gptr < w.egptr then w else Refilled(w)
  }

  // The character that is then at hand.
  function Front(w: Window): Option<char>
    requires InBounds(w)
  {
    if w.gptr < w.egptr then Some(w.memory[w.gptr]) else None
  }

  // The character at hand is the one at the reader's position in the text.
  predicate AtHand(w: Window, c: char) {
    0 <= Cursor(w) < |w.feed.delivered| && c == w.feed.delivered[Cursor(w)]
  }

  lemma FrontIsNext(w: Window)
    requires Faithful(w) && Certain(w) && w.gptr < w.egptr
    ensures AtHand(w, Front(w).value)
  {
    NextIsRight(w, w.gptr);
  }

  /** What filling means: neither the reader nor the text of the source moves, and what was certain
      stays certain.  There is nothing at hand only if the window was used up and the source brought
      nothing. */
  predicate Fills(w: Window, v: Window)
    requires InBounds(w)
  {
    && Faithful(v) && Cursor(v) == Cursor(w) && (Certain(w) ==> Certain(v))
    && v.feed.delivered + v.feed.rest == w.feed.delivered + w.feed.rest
    && w.feed.delivered <= v.feed.delivered
    && (w.feed.stalled ==> v.feed.stalled) && (w.feed.spoilt ==> v.feed.spoilt)
    && (v.gptr < v.egptr ==> v.feed.stalled == w.feed.stalled && v.feed.spoilt == w.feed.spoilt)
    && (v.gptr == v.egptr ==> v.feed.stalled && v.feed.delivered == w.feed.delivered)
    && (v.gptr == v.egptr <==> w.gptr == w.egptr && Supply(w.feed, |w.memory| - w.back) == 0)
    && (v.gptr < v.egptr && Certain(w) ==> AtHand(v, v.memory[v.gptr]))
    && v.back == w.back && ChunkStart(v) <= Max(ChunkStart(w), Cursor(w))
  }

  lemma RefillFeeds(w: Window)
    requires InBounds(w) && w.gptr == w.egptr
    ensures var f, g, v := w.feed, Refilled(w).feed, Refilled(w);
      && g.delivered + g.rest == f.delivered + f.rest && f.delivered <= g.delivered
      && (f.stalled ==> g.stalled) && (f.spoilt ==> g.spoilt)
      && v.gptr <= v.egptr && v.back == w.back && ChunkStart(v) <= Max(ChunkStart(w), Cursor(w))
      && (if v.gptr < v.egptr then Supply(f, |w.memory| - w.back) > 0 && g.stalled == f.stalled && g.spoilt == f.spoilt
          else Supply(f, |w.memory| - w.back) == 0 && g.stalled && g.delivered == f.delivered)
  {
    NothingIsLost(w.feed, |w.memory| - w.back);
  }

  lemma FilledFills(w: Window)
    requires Faithful(w)
    ensures Fills(w, Filled(w))
  {
    if w.gptr == w.egptr {
      RefillKeepsFaithful(w);
      RefillFeeds(w);
    }
    var v := Filled(w);
    if v.gptr < v.egptr && Certain(v) { FrontIsNext(v); }
  }

  function Taken(v: Window): (Window, Option<char>) {
    if 0 <= v.gptr < v.egptr <= |v.memory| then (v.(gptr := v.gptr + 1), Some(v.memory[v.gptr])) else (v, None)
  }

  // `sbumpc`: the window after it, and the character read.
  function Bumped(w: Window): (Window, Option<char>)
    requires InBounds(w)
  {
    Taken(Filled(w))
  }

  /** What reading one character means.  The text of the source is not touched; the reader moves over
      the next character, and if that was certain to be the right one it is, and so is the one
      after it.  There is none only if the window was used up and the source brought nothing. */
  predicate ReadsNext(w: Window, v: Window, c: Option<char>) {
    && Faithful(v)
    && v.feed.delivered + v.feed.rest == w.feed.delivered + w.feed.rest
    && w.feed.delivered <= v.feed.delivered
    && Cursor(v) == Cursor(w) + (if c.Some? then 1 else 0)
    && (Certain(w) ==> Certain(v) && (c.Some? ==> 0 <= Cursor(w) < |v.feed.delivered| && c.value == v.feed.delivered[Cursor(w)]))
    && (c == None <==> w.gptr == w.egptr && InBounds(w) && Supply(w.feed, |w.memory| - w.back) == 0)
    && (w.feed.stalled ==> v.feed.stalled) && (w.feed.spoilt ==> v.feed.spoilt)
    && (c.Some? ==> v.feed.stalled == w.feed.stalled && v.feed.spoilt == w.feed.spoilt)
    && (c == None ==> v.feed.stalled && v.feed.delivered == w.feed.delivered)
    && v.back == w.back && ChunkStart(v) <= Max(ChunkStart(w), Cursor(w))
  }

  lemma StepKeepsFaithful(w: Window, k: int)
    requires Faithful(w) && w.eback <= k <= w.egptr
    ensures Faithful(w.(gptr := k)) && Cursor(w.(gptr := k)) == Cursor(w) + (k - w.gptr)
  {
  }

  lemma TakenReadsNext(w: Window, v: Window, u: Window, c: Option<char>)
    requires Faithful(w) && Fills(w, v) && (u, c) == Taken(v)
    ensures ReadsNext(w, u, c)
  {
    if v.gptr < v.egptr {
      StepKeepsFaithful(v, v.gptr + 1);
    }
  }

  lemma BumpReadsNext(w: Window)
    requires Faithful(w)
    ensures ReadsNext(w, Bumped(w).0, Bumped(w).1)
  {
    FilledFills(w);
    TakenReadsNext(w, Filled(w), Bumped(w).0, Bumped(w).1);
  }

  // `sungetc`.
  function Ungot(w: Window): (Window, Option<char>)
    requires InBounds(w)
  {
    if w.gptr > w.eback then (w.(gptr := w.gptr - 1), Some(w.memory[w.gptr - 1])) else (w, None)
  }

  /** What going back one character means: it is possible exactly if the window reaches that far, and
      from the position `Sure` on it is the character of the text. */
  predicate GoesBack(w: Window, v: Window, c: Option<char>) {
    && Faithful(v) && v.feed == w.feed && v.back == w.back && ChunkStart(v) == ChunkStart(w)
    && Earliest(v) == Earliest(w) && Sure(v) == Sure(w)
    && (c.Some? <==> Cursor(w) > Earliest(w))
    && Cursor(v) == Cursor(w) - (if c.Some? then 1 else 0)
    && (c.Some? && Cursor(v) >= Sure(v) ==> AtHand(v, c.value))
  }

  lemma UngetStep(w: Window, v: Window)
    requires Faithful(w) && w.gptr > w.eback && v == w.(gptr := w.gptr - 1)
    ensures GoesBack(w, v, Some(w.memory[v.gptr]))
  {
    StepKeepsFaithful(w, v.gptr);
    if Certain(v) { FrontIsNext(v); }
  }

  lemma UngetStays(w: Window)
    requires Faithful(w) && w.gptr == w.eback
    ensures GoesBack(w, w, None)
  {
  }

  lemma UngetGoesBack(w: Window)
    requires Faithful(w)
    ensures GoesBack(w, Ungot(w).0, Ungot(w).1)
  {
    if w.gptr > w.eback { UngetStep(w, w.(gptr := w.gptr - 1)); } else { UngetStays(w); }
  }

  lemma OneFurther(text: seq<char>, from: nat, to: nat)
    requires from <= to < |text|
    ensures text[from..to + 1] == text[from..to] + [text[to]]
  {
  }

  // The next n characters of the text.
  function Held(w: Window, n: nat): seq<char> {
    if 0 <= Cursor(w) && Cursor(w) + n <= |w.feed.delivered| then w.feed.delivered[Cursor(w)..Cursor(w) + n] else []
  }

  lemma HeldFurther(w: Window, n: nat, c: char)
    requires Cursor(w) >= 0 && AtHand(w.(gptr := w.gptr + n), c)
    ensures Held(w, n + 1) == Held(w, n) + [c]
  {
    OneFurther(w.feed.delivered, Cursor(w), Cursor(w) + n);
  }

  // ------------------------------------------------------------------ the objects

  class Source {
    var deliveries: seq<Delivery>
    var delivered: seq<char>
    var rest: seq<char>
    var stalled: bool
    var spoilt: bool
    var closings: nat

    constructor (text: seq<char>, deliveries: seq<Delivery>)
      ensures View() == Feed(deliveries, [], text, false, false) && closings == 0
    {
      this.deliveries, rest := deliveries, text;
      delivered, stalled, spoilt, closings := [], false, false, 0;
    }

    function View(): Feed
      reads this
    {
      Feed(deliveries, delivered, rest, stalled, spoilt)
    }

    method Fill(memory: array<char>, from: nat, text: seq<char>)
      requires from + |text| <= memory.Length
      modifies memory
      ensures memory[..] == Overwritten(old(memory[..]), from, text)
    {
      ghost var before := memory[..];
      forall k | 0 <= k < |text| {
        memory[from + k] := text[k];
      }
      assert forall k :: 0 <= k < memory.Length ==> memory[k] == Overwritten(before, from, text)[k];
    }

    method Read(memory: array<char>, from: nat) returns (count: int)
      requires from < memory.Length
      modifies this, memory
      ensures View() == AfterRead(old(View()), memory.Length - from) && closings == old(closings)
      ensures memory[..] == Overwritten(old(memory[..]), from, Brought(old(View()), memory.Length - from))
      ensures if Supply(old(View()), memory.Length - from) > 0 then count == Supply(old(View()), memory.Length - from)
              else count <= 0
    {
      var room := memory.Length - from;
      var text, n := Brought(View(), room), Supply(View(), room);
      Fill(memory, from, text);
      deliveries := if deliveries == [] then [] else deliveries[1..];
      delivered, rest := delivered + rest[..n], rest[n..];
      stalled, spoilt := stalled || n == 0, spoilt || (n == 0 && text != []);
      count := if n > 0 then n else if text != [] then -1 else 0;
    }

    method ShutdownRead()
      modifies this`closings
      ensures closings == old(closings) + 1
    {
      closings := closings + 1;
    }
  }

  class IStreamBuf {
    var rw: Source?
    var back: nat
    var buffer: array<char>
    var eback: int
    var gptr: int
    var egptr: int
    ghost var sure: int

    ghost function View(): Window
      requires rw != null
      reads this, rw, buffer
    {
      Window(back, buffer[..], eback, gptr, egptr, sure, rw.View())
    }

    ghost predicate Valid()
      reads this, rw, buffer
    {
      rw != null && Faithful(View())
    }

    constructor (rw: Source, size: nat, size_pb: nat)
      requires size >= 1 && size_pb >= 1 && rw.delivered == [] && !rw.stalled && !rw.spoilt
      ensures Valid() && this.rw == rw && fresh(buffer) && buffer.Length == size + size_pb
      ensures View() == Init(rw.rest, rw.deliveries, buffer[..], size_pb)
    {
      this.rw := rw;
      back := size_pb;
      buffer := new char[size + size_pb];
      eback, gptr, egptr, sure := size_pb, size_pb, size_pb, size_pb;
    }

    // The move constructor: the new object takes over; the old one is no longer connected.
    constructor MovedFrom(other: IStreamBuf)
      requires other.Valid()
      modifies other
      ensures Valid() && rw == old(other.rw) && buffer == old(other.buffer)
      ensures View() == old(other.View())
      ensures other.rw == null && fresh(other.buffer)
    {
      rw, back, buffer := other.rw, other.back, other.buffer;
      eback, gptr, egptr, sure := other.eback, other.gptr, other.egptr, other.sure;
      new;
      other.rw := null;
      other.buffer := new char[0];
    }

    // The destructor.
    method Destroy()
      modifies rw
      ensures rw != null ==> rw.closings == old(rw.closings) + 1 && rw.View() == old(rw.View())
    {
      if rw != null {
        rw.ShutdownRead();
      }
    }

    // Slides the `n` characters in front of `gptr` to the end of the putback area.
    method Slide(n: nat)
      requires 0 <= n <= back <= buffer.Length && n <= gptr <= buffer.Length
      modifies buffer
      ensures buffer[..] == Slid(old(buffer[..]), gptr, back, n)
    {
      ghost var memory := buffer[..];
      forall k | 0 <= k < n {
        buffer[back - n + k] := buffer[gptr - n + k];
      }
      assert forall k :: 0 <= k < buffer.Length ==> buffer[k] == Slid(memory, gptr, back, n)[k];
    }

    // Slides, and reads a new chunk behind that.
    method Load(n: nat) returns (count: int)
      requires rw != null && 0 <= n <= back < buffer.Length && n <= gptr <= buffer.Length
      modifies buffer, rw
      ensures View() == Loaded(old(View()), n) && rw.closings == old(rw.closings)
      ensures var got := Supply(old(rw.View()), buffer.Length - back); if got > 0 then count == got else count <= 0
    {
      Slide(n);
      count := rw.Read(buffer, back);
    }

    // Points to the `count` characters read behind the `n` that were slid, if there are any.
    method Point(n: nat, count: int)
      requires rw != null
      modifies this`eback, this`gptr, this`egptr, this`sure
      ensures View() == Pointed(old(View()), n, count)
    {
      if count > 0 {
        sure := back - Min(n, egptr - sure);
        eback, gptr, egptr := back - n, back, back + count;
      } else {
        sure := if rw.spoilt then egptr else back;
      }
    }

    // Replaces a chunk that is used up.
    method Refill() returns (ok: bool)
      requires rw != null && InBounds(View()) && gptr == egptr
      modifies this, buffer, rw
      ensures buffer == old(buffer) && rw == old(rw) && rw.closings == old(rw.closings)
      ensures View() == Refilled(old(View()))
      ensures ok <==> Supply(old(rw.View()), buffer.Length - back) > 0
    {
      var n_pb := Min(gptr - eback, back);
      var count := Load(n_pb);
      ok := count > 0;
      Point(n_pb, count);
    }

    method Fill() returns (c: Option<char>)
      requires rw != null && InBounds(View())
      modifies this, buffer, rw
      ensures buffer == old(buffer) && rw == old(rw) && rw.closings == old(rw.closings)
      ensures View() == Filled(old(View())) && c == Front(View())
    {
      if gptr < egptr {
        return Some(buffer[gptr]);
      }
      var ok := Refill();
      c := if ok then Some(buffer[gptr]) else None;
    }

    method Take() returns (c: Option<char>)
      requires rw != null && InBounds(View())
      modifies this, buffer, rw
      ensures buffer == old(buffer) && rw == old(rw) && rw.closings == old(rw.closings)
      ensures (View(), c) == Bumped(old(View()))
    {
      c := Fill();
      if c.Some? {
        gptr := gptr + 1;
      }
    }

    method StepBack() returns (c: Option<char>)
      requires rw != null && InBounds(View())
      modifies this`gptr
      ensures (View(), c) == Ungot(old(View()))
    {
      if gptr <= eback {
        return None;
      }
      gptr := gptr - 1;
      return Some(buffer[gptr]);
    }

    /** `underflow`: makes sure a character can be read, refilling the buffer when it is used up. */
    method Underflow() returns (c: Option<char>)
      requires Valid()
      modifies this, buffer, rw
      ensures Valid() && buffer == old(buffer) && rw == old(rw) && rw.closings == old(rw.closings)
      ensures Fills(old(View()), View()) && c == Front(View())
    {
      FilledFills(View());
      c := Fill();
    }

    /** `sbumpc`: reads the next character of the source, whatever the chunks it came in. */
    method Bump() returns (c: Option<char>)
      requires Valid()
      modifies this, buffer, rw
      ensures Valid() && buffer == old(buffer) && rw == old(rw) && rw.closings == old(rw.closings)
      ensures (View(), c) == Bumped(old(View())) && ReadsNext(old(View()), View(), c)
    {
      BumpReadsNext(View());
      c := Take();
    }

    /** `sungetc`: goes back one character, to the one read there. */
    method Unget() returns (c: Option<char>)
      requires Valid()
      modifies this`gptr
      ensures Valid() && (View(), c) == Ungot(old(View())) && GoesBack(old(View()), View(), c)
    {
      UngetGoesBack(View());
      c := StepBack();
    }

    // `sputbackc`: like `sungetc`, but only if `c` is the character that was read there.
    method PutBack(c: char) returns (ok: bool)
      requires Valid()
      modifies this`gptr
      ensures Valid() && ok == (Ungot(old(View())).1 == Some(c))
      ensures if ok then GoesBack(old(View()), View(), Some(c)) else View() == old(View())
    {
      ok := gptr > eback && buffer[gptr - 1] == c;
      if ok {
        var r := Unget();
      }
    }

    // Goes back `n` characters.
    method Rewind(n: nat)
      requires Valid() && n <= Cursor(View()) - Earliest(View())
      modifies this`gptr
      ensures Valid() && View() == old(View()).(gptr := old(gptr) - n)
    {
      ghost var w := View();
      var i := 0;
      while i < n
        invariant i <= n && Valid() && View() == w.(gptr := w.gptr - i)
      {
        var c := Unget();
        i := i + 1;
      }
    }

    // Reads a character that is in the window.
    method ReadHeld() returns (c: char)
      requires Valid() && Certain(View()) && gptr < egptr
      modifies this, buffer, rw
      ensures Valid() && rw == old(rw) && buffer == old(buffer)
      ensures View() == old(View()).(gptr := old(gptr) + 1) && AtHand(old(View()), c)
    {
      FrontIsNext(View());
      var r := Bump();
      c := r.value;
    }

    // Reads `n` characters out of the window.
    method ReadOn(n: nat) returns (text: seq<char>)
      requires Valid() && Certain(View()) && gptr + n <= egptr
      modifies this, buffer, rw
      ensures Valid() && rw == old(rw) && View() == old(View()).(gptr := old(gptr) + n)
      ensures text == Held(old(View()), n)
    {
      ghost var w, r, b := View(), rw, buffer;
      text := [];
      while |text| < n
        invariant rw == r && buffer == b && Valid() && |text| <= n
        invariant View() == w.(gptr := w.gptr + |text|)
        invariant text == Held(w, |text|)
      {
        var c := ReadHeld();
        HeldFurther(w, |text|, c);
        text := text + [c];
      }
    }

    /** The last `n` characters can be put back and read again unchanged, for every `n` that does not
        go back beyond what is sure: the whole window if no read has failed, and at least what has
        been read of the chunk if none has left garbage. */
    method Reread(n: nat) returns (text: seq<char>)
      requires Valid() && n <= Cursor(View()) - Sure(View())
      modifies this, buffer, rw
      ensures Valid() && rw == old(rw) && View() == old(View())
      ensures text == rw.delivered[Cursor(View()) - n..Cursor(View())]
      ensures !rw.stalled ==> Sure(View()) == Earliest(View())
      ensures !rw.spoilt ==> Sure(View()) <= ChunkStart(View())
    {
      Rewind(n);
      text := ReadOn(n);
    }
  }

  // ------------------------------------------------------------------ what is still to come

  // The chunks the source brings up to the first read that brings nothing.
  function Chunks(f: Feed, room: nat): seq<char>
    decreases |f.rest|
  {
    if Supply(f, room) == 0 then [] else Brought(f, room) + Chunks(AfterRead(f, room), room)
  }

  // What a reader at position p still has to read before that.
  function ComingFrom(f: Feed, p: int, room: nat): seq<char>
    requires 0 <= p <= |f.delivered|
  {
    f.delivered[p..] + Chunks(f, room)
  }

  function Coming(w: Window): seq<char> {
    if 0 <= Cursor(w) <= |w.feed.delivered| && w.back <= |w.memory| then
      ComingFrom(w.feed, Cursor(w), |w.memory| - w.back)
    else []
  }

  lemma ReadBrings(f: Feed, room: nat)
    ensures Supply(f, room) > 0 ==> ComingFrom(AfterRead(f, room), |f.delivered|, room) == ComingFrom(f, |f.delivered|, room)
    ensures Supply(f, room) == 0 ==> ComingFrom(f, |f.delivered|, room) == []
  {
    if Supply(f, room) > 0 {
      var d, chunk, more := f.delivered, Brought(f, room), Chunks(AfterRead(f, room), room);
      assert (d + chunk)[|d|..] == chunk && d[|d|..] == [];
    }
  }

  lemma RefillReads(w: Window)
    requires InBounds(w) && w.gptr == w.egptr
    ensures var v := Refilled(w);
      v.feed == AfterRead(w.feed, |w.memory| - w.back) && |v.memory| == |w.memory| && v.back == w.back
  {
  }

  lemma ComingAt(w: Window, p: int, room: int)
    requires p == Cursor(w) && room == |w.memory| - w.back && 0 <= p <= |w.feed.delivered| && room >= 0
    ensures Coming(w) == ComingFrom(w.feed, p, room)
  {
  }

  lemma RefillBrings(w: Window, v: Window, room: nat)
    requires w.gptr == w.egptr && room == |w.memory| - w.back == |v.memory| - v.back
    requires v.feed == AfterRead(w.feed, room) && Cursor(v) == Cursor(w)
    ensures if Supply(w.feed, room) > 0 then Coming(v) == Coming(w) else Coming(w) == []
  {
    var p := |w.feed.delivered|;
    ComingAt(w, p, room);
    ComingAt(v, p, room);
    ReadBrings(w.feed, room);
  }

  lemma RefilledBrings(w: Window, v: Window)
    requires InBounds(w) && w.gptr == w.egptr && v == Refilled(w) && Cursor(v) == Cursor(w)
    ensures if Supply(w.feed, |w.memory| - w.back) > 0 then Coming(v) == Coming(w) else Coming(w) == []
  {
    RefillReads(w);
    RefillBrings(w, v, |w.memory| - w.back);
  }

  lemma FillBrings(w: Window, v: Window)
    requires Faithful(w) && v == Filled(w) && Fills(w, v)
    ensures if v.gptr < v.egptr then Coming(v) == Coming(w) else Coming(w) == []
  {
    if w.gptr == w.egptr { RefilledBrings(w, v); }
  }

  lemma TakeFirst(f: Feed, p: nat, room: nat)
    requires p < |f.delivered|
    ensures ComingFrom(f, p, room) == [f.delivered[p]] + ComingFrom(f, p + 1, room)
  {
    assert f.delivered[p..] == [f.delivered[p]] + f.delivered[p + 1..];
  }

  lemma TakeBrings(v: Window, u: Window, c: char)
    requires AtHand(v, c) && u == v.(gptr := v.gptr + 1) && v.back <= |v.memory|
    ensures Coming(v) == [c] + Coming(u)
  {
    TakeFirst(v.feed, Cursor(v), |v.memory| - v.back);
  }

  // One read takes the first character of what is coming, and there is none only if nothing is.
  predicate TakesFirst(w: Window, u: Window, c: Option<char>) {
    Coming(w) == if c.Some? then [c.value] + Coming(u) else []
  }

  lemma TakenTakesFirst(w: Window, v: Window, u: Window, c: Option<char>)
    requires Faithful(w) && Certain(w) && v == Filled(w) && Fills(w, v) && (u, c) == Taken(v)
    ensures TakesFirst(w, u, c)
  {
    FillBrings(w, v);
    if v.gptr < v.egptr { TakeBrings(v, u, c.value); }
  }

  lemma BumpBrings(w: Window)
    requires Faithful(w) && Certain(w)
    ensures TakesFirst(w, Bumped(w).0, Bumped(w).1)
  {
    FilledFills(w);
    TakenTakesFirst(w, Filled(w), Bumped(w).0, Bumped(w).1);
  }

  lemma InitComing(text: seq<char>, deliveries: seq<Delivery>, memory: seq<char>, back: nat)
    requires back <= |memory|
    ensures var w := Init(text, deliveries, memory, back); Coming(w) == Chunks(w.feed, |memory| - back)
  {
  }

  // What is known while reading to the end: the text so far, and whether there may be more.
  predicate ReadsOn(w: Window, text: seq<char>, more: bool) {
    && Faithful(w) && Certain(w) && |text| == Cursor(w) && text <= w.feed.delivered
    && (!more ==> text == w.feed.delivered)
  }

  lemma NextOne(w: Window, v: Window, c: Option<char>, text: seq<char>)
    requires ReadsOn(w, text, true) && ReadsNext(w, v, c)
    ensures if c.Some? then ReadsOn(v, text + [c.value], true) else ReadsOn(v, text, false)
  {
    if c.Some? { OneFurther(v.feed.delivered, 0, |text|); }
  }

  // ------------------------------------------------------------------ whole lives

  lemma AppendTwice(text: seq<char>, c: char, coming: seq<char>)
    ensures text + ([c] + coming) == text + [c] + coming
  {
  }

  // What the owner of an input buffer may do with it.
  datatype Errand = Get | Unget | Move

  // One of them, and what it came back with.
  datatype Event = Event(errand: Errand, result: Option<char>)

  type History = seq<Event>

  predicate Answers(h: History, errands: seq<Errand>) {
    |h| <= |errands| && forall i :: 0 <= i < |h| ==> h[i].errand == errands[i]
  }

  lemma AnswersGrow(h: History, more: History, errands: seq<Errand>)
    requires Answers(h, errands) && |more| == |h| + 1 <= |errands|
    requires more[..|h|] == h && more[|h|].errand == errands[|h|]
    ensures Answers(more, errands)
  {
    forall i | 0 <= i < |more| ensures more[i].errand == errands[i] {
      assert i < |h| ==> more[i] == more[..|h|][i];
    }
  }

  // What has been read and not put back, and how much that is.
  function Replay(h: History): seq<char> {
    if h == [] then []
    else
      var text, last := Replay(h[..|h| - 1]), h[|h| - 1];
      if last.result == None then text
      else if last.errand == Get then text + [last.result.value]
      else if text == [] then [] else text[..|text| - 1]
  }

  function Position(h: History): nat { |Replay(h)| }

  // The furthest position read to.
  function Furthest(h: History): nat {
    if h == [] then 0 else Max(Furthest(h[..|h| - 1]), Position(h))
  }

  // At position p of the text d, a character read is the one there, and one put back the one before.
  predicate Right(d: seq<char>, p: nat, e: Event) {
    match e.result
    case None => true
    case Some(c) =>
      match e.errand
      case Get => p < |d| && c == d[p]
      case Unget => 0 < p <= |d| && c == d[p - 1]
      case Move => false
  }

  predicate AllRight(d: seq<char>, h: History) {
    h != [] ==> AllRight(d, h[..|h| - 1]) && Right(d, Position(h[..|h| - 1]), h[|h| - 1])
  }

  // Every attempt to read was answered.
  predicate NoneMissing(h: History) {
    h != [] ==> NoneMissing(h[..|h| - 1]) && (h[|h| - 1].errand == Get ==> h[|h| - 1].result.Some?)
  }

  // Going back failed only at the beginning, or `back` characters behind the furthest one read.
  predicate GoesBackFar(back: nat, h: History) {
    h != [] ==>
      var before, last := h[..|h| - 1], h[|h| - 1];
      GoesBackFar(back, before)
      && (last == Event(Unget, None) ==> Position(before) == 0 || Furthest(before) - Position(before) >= back)
  }

  lemma {:induction false} StaysRight(d: seq<char>, d': seq<char>, h: History)
    requires AllRight(d, h) && d <= d'
    ensures AllRight(d', h)
  {
    if h != [] {
      StaysRight(d, d', h[..|h| - 1]);
    }
  }

  lemma {:induction false} RightText(d: seq<char>, h: History)
    requires AllRight(d, h)
    ensures Replay(h) <= d
  {
    if h != [] {
      RightText(d, h[..|h| - 1]);
    }
  }

  lemma {:induction false} NotBeyondFurthest(h: History)
    ensures Position(h) <= Furthest(h)
  {
  }

  /** If every attempt to read was answered, reading n times has read n characters. */
  lemma {:induction false} AllGets(h: History)
    requires NoneMissing(h) && forall e :: e in h ==> e.errand == Get
    ensures Position(h) == |h|
  {
    if h != [] {
      assert forall e :: e in h[..|h| - 1] ==> e in h;
      AllGets(h[..|h| - 1]);
    }
  }

  /** What an errand means for the window. */
  predicate Serves(w: Window, e: Event, v: Window) {
    && Faithful(v) && v.back == w.back && ChunkStart(v) <= Max(ChunkStart(w), Cursor(w))
    && v.feed.delivered + v.feed.rest == w.feed.delivered + w.feed.rest && w.feed.delivered <= v.feed.delivered
    && (w.feed.stalled ==> v.feed.stalled)
    && (Certain(w) && e.errand != Unget ==> Certain(v))
    && Cursor(v) == Cursor(w) + (if e.result == None then 0 else if e.errand == Get then 1 else -1)
    && (e.errand == Get && e.result == None ==> v.feed.stalled)
    && (e.errand == Unget && e.result == None ==> Cursor(w) == Earliest(w))
    && (Certain(w) && (e.errand == Get || !v.feed.stalled) && Cursor(w) >= 0 ==>
          Right(v.feed.delivered, Cursor(w), e))
  }

  lemma GetServes(w: Window, v: Window, c: Option<char>)
    requires Faithful(w) && ReadsNext(w, v, c)
    ensures Serves(w, Event(Get, c), v)
  {
  }

  lemma UngetServes(w: Window, v: Window, c: Option<char>)
    requires Faithful(w) && GoesBack(w, v, c)
    ensures Serves(w, Event(Unget, c), v)
  {
  }

  // And for what is still to come, unless something is put back.
  predicate Advances(w: Window, e: Event, v: Window) {
    && (e.errand == Get && Certain(w) ==> TakesFirst(w, v, e.result))
    && (e.errand == Get && e.result.Some? ==> v.feed.stalled == w.feed.stalled)
    && (e.errand == Move ==> v == w)
  }

  method GetOne(buf: IStreamBuf) returns (e: Event)
    requires buf.Valid()
    modifies buf, buf.buffer, buf.rw
    ensures buf.Valid() && buf.rw == old(buf.rw) && buf.buffer == old(buf.buffer)
    ensures buf.rw.closings == old(buf.rw.closings) && e.errand == Get
    ensures Serves(old(buf.View()), e, buf.View()) && Advances(old(buf.View()), e, buf.View())
  {
    ghost var w := buf.View();
    if Certain(w) { BumpBrings(w); }
    var c := buf.Bump();
    GetServes(w, buf.View(), c);
    e := Event(Get, c);
  }

  // One errand.
  method Run(buf: IStreamBuf, errand: Errand) returns (next: IStreamBuf, e: Event)
    requires buf.Valid()
    modifies buf, buf.buffer, buf.rw
    ensures next.Valid() && next.rw == old(buf.rw) && next.buffer == old(buf.buffer)
    ensures next != buf ==> fresh(next)
    ensures next.rw.closings == old(buf.rw.closings)
    ensures e.errand == errand && (errand == Move ==> e.result == None)
    ensures Serves(old(buf.View()), e, next.View()) && Advances(old(buf.View()), e, next.View())
  {
    ghost var w := buf.View();
    next := buf;
    if errand == Get {
      e := GetOne(buf);
    } else if errand == Unget {
      var c := buf.Unget();
      UngetServes(w, buf.View(), c);
      e := Event(Unget, c);
    } else {
      next := new IStreamBuf.MovedFrom(buf);
      buf.Destroy();
      e := Event(Move, None);
    }
  }

  /** What is known of a window and of the history that led to it; `honest` says that no read has
      failed, or that nothing is put back. */
  predicate Follows(w: Window, h: History, honest: bool) {
    && Faithful(w) && Cursor(w) == Position(h) && ChunkStart(w) <= Furthest(h)
    && GoesBackFar(w.back, h)
    && (!w.feed.stalled ==> NoneMissing(h))
    && (honest ==> Certain(w) && AllRight(w.feed.delivered, h))
  }

  // No read has failed, and what has been read and what is still to come make up `all`.
  predicate Takes(w: Window, h: History, all: seq<char>) {
    !w.feed.stalled && Replay(h) + Coming(w) == all
  }

  lemma HistoryGrows(h: History, e: Event)
    ensures (h + [e])[..|h|] == h && (h + [e])[|h|] == e
  {
  }

  lemma PositionGrows(h: History, e: Event)
    requires e.errand == Unget && e.result.Some? ==> Position(h) > 0
    requires e.errand == Move ==> e.result == None
    ensures Position(h + [e]) == Position(h) + (if e.result == None then 0 else if e.errand == Get then 1 else -1)
    ensures Furthest(h + [e]) >= Furthest(h) >= Position(h)
  {
    HistoryGrows(h, e);
    NotBeyondFurthest(h);
  }

  lemma TruthGrows(d: seq<char>, d': seq<char>, h: History, e: Event)
    requires AllRight(d, h) && d <= d' && Right(d', Position(h), e)
    ensures AllRight(d', h + [e])
  {
    HistoryGrows(h, e);
    StaysRight(d, d', h);
  }

  lemma ReachGrows(w: Window, h: History, e: Event)
    requires Faithful(w) && Cursor(w) == Position(h) && ChunkStart(w) <= Furthest(h) && GoesBackFar(w.back, h)
    requires e == Event(Unget, None) ==> Cursor(w) == Earliest(w)
    ensures GoesBackFar(w.back, h + [e])
  {
    HistoryGrows(h, e);
  }

  lemma MissingGrows(h: History, e: Event)
    requires NoneMissing(h) && (e.errand == Get ==> e.result.Some?)
    ensures NoneMissing(h + [e])
  {
    HistoryGrows(h, e);
  }

  lemma {:induction false} NotBeyondLength(h: History)
    ensures Position(h) <= |h|
  {
    if h != [] {
      NotBeyondLength(h[..|h| - 1]);
    }
  }

  lemma TakesOn(w: Window, h: History, e: Event, v: Window, all: seq<char>)
    requires Takes(w, h, all) && Certain(w) && Advances(w, e, v) && e.errand != Unget && |h| < |all|
    requires e.errand == Move ==> e.result == None
    ensures Takes(v, h + [e], all)
  {
    HistoryGrows(h, e);
    NotBeyondLength(h);
    if e.result.Some? { AppendTwice(Replay(h), e.result.value, Coming(v)); }
  }

  lemma ServedFollows(w: Window, h: History, e: Event, v: Window, wasHonest: bool, honest: bool)
    requires Follows(w, h, wasHonest) && Serves(w, e, v) && (e.errand == Move ==> e.result == None)
    requires honest ==> wasHonest && (!v.feed.stalled || e.errand != Unget)
    ensures Follows(v, h + [e], honest)
  {
    PositionGrows(h, e);
    ReachGrows(w, h, e);
    if !v.feed.stalled { MissingGrows(h, e); }
    if honest { TruthGrows(w.feed.delivered, v.feed.delivered, h, e); }
  }

  lemma InitFollows(w: Window, text: seq<char>, deliveries: seq<Delivery>, back: nat, honest: bool)
    requires 1 <= back < |w.memory| && w == Init(text, deliveries, w.memory, back)
    ensures Follows(w, [], honest)
  {
  }

  lemma InitReadsOn(w: Window, text: seq<char>, deliveries: seq<Delivery>, back: nat)
    requires 1 <= back < |w.memory| && w == Init(text, deliveries, w.memory, back)
    ensures ReadsOn(w, [], true) && Coming(w) == Chunks(w.feed, |w.memory| - back)
  {
    InitComing(text, deliveries, w.memory, back);
  }

  // A buffer on a source from which nothing has been read.
  method Open(source: Source, size: nat, size_pb: nat) returns (buf: IStreamBuf, ghost w: Window)
    requires size >= 1 && size_pb >= 1 && source.delivered == [] && !source.stalled && !source.spoilt
    ensures fresh(buf) && fresh(buf.buffer) && buf.rw == source && buf.View() == w
    ensures |w.memory| == size + size_pb && w == Init(source.rest, source.deliveries, w.memory, size_pb)
  {
    buf := new IStreamBuf(source, size, size_pb);
    w := buf.View();
  }

  // One more errand in a history; `never` says that nothing is ever put back.
  method Continue(buf: IStreamBuf, h: History, errand: Errand, ghost never: bool, ghost all: seq<char>, ghost w: Window)
    returns (next: IStreamBuf, more: History, ghost v: Window)
    requires buf.rw != null && buf.View() == w
    requires Follows(w, h, !w.feed.stalled || never) && (never ==> errand != Unget)
    modifies buf, buf.buffer, buf.rw
    ensures next.rw == old(buf.rw) && next.buffer == old(buf.buffer) && next.View() == v && v.back == w.back
    ensures next != buf ==> fresh(next)
    ensures next.rw.closings == old(buf.rw.closings)
    ensures v.feed.delivered + v.feed.rest == w.feed.delivered + w.feed.rest
    ensures |more| == |h| + 1 && more[..|h|] == h && more[|h|].errand == errand
    ensures Follows(v, more, !v.feed.stalled || never)
    ensures errand != Unget && Takes(w, h, all) && |h| < |all| ==> Takes(v, more, all)
  {
    var e;
    next, e := Run(buf, errand);
    v := next.View();
    more := h + [e];
    if errand != Unget && Takes(w, h, all) && |h| < |all| { TakesOn(w, h, e, v, all); }
    ServedFollows(w, h, e, v, !w.feed.stalled || never, !v.feed.stalled || never);
  }

  // All errands, one after the other.
  method RunAll(buf: IStreamBuf, errands: seq<Errand>, ghost all: seq<char>, ghost w: Window)
    returns (last: IStreamBuf, history: History, ghost v: Window)
    requires buf.rw != null && buf.View() == w && Follows(w, [], !w.feed.stalled || Unget !in errands) && Takes(w, [], all)
    modifies buf, buf.buffer, buf.rw
    ensures last.rw == old(buf.rw) && last.View() == v && v.back == w.back
    ensures last.rw.closings == old(buf.rw.closings)
    ensures v.feed.delivered + v.feed.rest == w.feed.delivered + w.feed.rest
    ensures |history| == |errands| && Answers(history, errands)
    ensures Follows(v, history, !v.feed.stalled || Unget !in errands)
    ensures Unget !in errands && |errands| <= |all| ==> Takes(v, history, all)
  {
    ghost var r, b, c := buf.rw, buf.buffer, buf.rw.closings;
    last, history, v := buf, [], w;
    while |history| < |errands|
      invariant last == buf || fresh(last)
      invariant last.rw == r && last.buffer == b && last.View() == v && v.back == w.back && r.closings == c
      invariant v.feed.delivered + v.feed.rest == w.feed.delivered + w.feed.rest
      invariant |history| <= |errands| && Answers(history, errands)
      invariant Follows(v, history, !v.feed.stalled || Unget !in errands)
      invariant Unget !in errands && |errands| <= |all| ==> Takes(v, history, all)
    {
      ghost var before := history;
      last, history, v := Continue(last, history, errands[|history|], Unget !in errands, all, v);
      AnswersGrow(before, history, errands);
    }
  }

  lemma InitTakes(w: Window, text: seq<char>, deliveries: seq<Delivery>, back: nat)
    requires 1 <= back < |w.memory| && w == Init(text, deliveries, w.memory, back)
    ensures Takes(w, [], Chunks(w.feed, |w.memory| - back))
  {
    InitComing(text, deliveries, w.memory, back);
  }

  method OpenHistory(source: Source, size: nat, size_pb: nat, ghost honest: bool)
    returns (buf: IStreamBuf, ghost w: Window, ghost all: seq<char>)
    requires size >= 1 && size_pb >= 1 && source.delivered == [] && !source.stalled && !source.spoilt
    ensures fresh(buf) && fresh(buf.buffer) && buf.rw == source && buf.View() == w
    ensures w.back == size_pb && w.feed == source.View()
    ensures Follows(w, [], honest) && Takes(w, [], all) && all == Chunks(source.View(), size)
  {
    buf, w := Open(source, size, size_pb);
    all := Chunks(w.feed, size);
    InitFollows(w, source.rest, source.deliveries, size_pb, honest);
    InitTakes(w, source.rest, source.deliveries, size_pb);
  }

  // What follows from the end of a history.
  lemma EndOfHistory(v: Window, h: History, honest: bool, all: seq<char>)
    requires Follows(v, h, honest)
    ensures honest ==> AllRight(v.feed.delivered, h) && Replay(h) <= v.feed.delivered
    ensures !v.feed.stalled ==> NoneMissing(h)
    ensures GoesBackFar(v.back, h)
    ensures Takes(v, h, all) ==> !v.feed.stalled && Replay(h) <= all
  {
    if honest { RightText(v.feed.delivered, h); }
  }

  /** Any sequence of reads, put-backs and moves, for every way the source cuts its text into chunks
      and every buffer size.  Every read is answered unless one has failed.  As long as none has
      failed, or if nothing is put back, every character read or put back is the one of the text at
      that position.  Going back fails only at the beginning, or `size_pb` characters behind the
      furthest one read.  With nothing put back, no read fails that asks for no more than the source
      brings before its first failure. */
  method ReadAll(source: Source, size: nat, size_pb: nat, errands: seq<Errand>) returns (history: History)
    requires size >= 1 && size_pb >= 1 && source.delivered == [] && !source.stalled && !source.spoilt
    modifies source
    ensures |history| == |errands| && Answers(history, errands)
    ensures source.delivered + source.rest == old(source.rest)
    ensures source.closings == old(source.closings) + 1
    ensures !source.stalled ==> NoneMissing(history)
    ensures !source.stalled || Unget !in errands ==> AllRight(source.delivered, history) && Replay(history) <= source.delivered
    ensures GoesBackFar(size_pb, history)
    ensures var all := Chunks(old(source.View()), size);
      Unget !in errands && |errands| <= |all| ==> !source.stalled && Replay(history) <= all
  {
    ghost var w, v, all;
    var buf;
    buf, w, all := OpenHistory(source, size, size_pb, !source.stalled || Unget !in errands);
    buf, history, v := RunAll(buf, errands, all, w);
    EndOfHistory(v, history, !v.feed.stalled || Unget !in errands, all);
    buf.Destroy();
  }

  // ------------------------------------------------------------------ reading to the end

  // One round: what has been read followed by what is coming stays the same.
  method ReadOneMore(buf: IStreamBuf, text: seq<char>, ghost w: Window)
    returns (now: seq<char>, more: bool, ghost v: Window)
    requires buf.rw != null && buf.View() == w && ReadsOn(w, text, true)
    modifies buf, buf.buffer, buf.rw
    ensures buf.rw == old(buf.rw) && buf.buffer == old(buf.buffer) && buf.View() == v
    ensures buf.rw.closings == old(buf.rw.closings)
    ensures v.feed.delivered + v.feed.rest == w.feed.delivered + w.feed.rest
    ensures ReadsOn(v, now, more)
    ensures if more then |now| == |text| + 1 && now + Coming(v) == text + Coming(w) else now == text && Coming(w) == []
  {
    BumpBrings(w);
    var c := buf.Bump();
    v := buf.View();
    NextOne(w, v, c, text);
    more, now := c.Some?, text;
    if more {
      AppendTwice(text, c.value, Coming(v));
      now := text + [c.value];
    }
  }

  // Reads until there is nothing.
  method ReadRest(buf: IStreamBuf, ghost w: Window) returns (text: seq<char>)
    requires buf.rw != null && buf.View() == w && ReadsOn(w, [], true)
    modifies buf, buf.buffer, buf.rw
    ensures buf.rw == old(buf.rw) && buf.rw.closings == old(buf.rw.closings)
    ensures text == Coming(w) && text == buf.rw.delivered
    ensures buf.rw.delivered + buf.rw.rest == w.feed.delivered + w.feed.rest
  {
    ghost var v, r, b := w, buf.rw, buf.buffer;
    ghost var all, whole := Coming(w), w.feed.delivered + w.feed.rest;
    text := [];
    var more := true;
    while more
      invariant buf.rw == r && buf.buffer == b && buf.View() == v && r.closings == old(buf.rw.closings)
      invariant v.feed.delivered + v.feed.rest == whole && ReadsOn(v, text, more)
      invariant if more then text + Coming(v) == all else text == all
      decreases more, |whole| - |text|
    {
      text, more, v := ReadOneMore(buf, text, v);
    }
  }

  /** Reading until there is nothing: exactly the chunks the source brings before its first failure,
      one after the other, and with that all it has delivered. */
  method ReadToEnd(source: Source, size: nat, size_pb: nat) returns (text: seq<char>)
    requires size >= 1 && size_pb >= 1 && source.delivered == [] && !source.stalled && !source.spoilt
    modifies source
    ensures text == Chunks(old(source.View()), size) && text == source.delivered
    ensures source.delivered + source.rest == old(source.rest)
    ensures source.closings == old(source.closings) + 1
  {
    ghost var w;
    var buf;
    buf, w := Open(source, size, size_pb);
    InitReadsOn(w, source.rest, source.deliveries, size_pb);
    text := ReadRest(buf, w);
    buf.Destroy();
  }

  // ------------------------------------------------------------------ a failed read

  // The window of one cell of putback and one of buffer at each point of that run.
  function Small(memory: seq<char>, eback: nat, gptr: nat, egptr: nat, sure: nat, feed: Feed): Window {
    Window(1, memory, eback, gptr, egptr, sure, feed)
  }

  function AtStart(x: char, y: char, a: char, b: char): Window {
    Small([x, y], 1, 1, 1, 1, Feed([Chunk(1), Chunk(1), Nothing([])], [], [a, b], false, false))
  }

  function AfterOne(x: char, a: char, b: char): Window {
    Small([x, a], 1, 2, 2, 1, Feed([Chunk(1), Nothing([])], [a], [b], false, false))
  }

  function AfterTwo(a: char, b: char): Window {
    Small([a, b], 0, 2, 2, 0, Feed([Nothing([])], [a, b], [], false, false))
  }

  function AfterFailure(a: char, b: char): Window {
    Small([b, b], 0, 2, 2, 1, Feed([], [a, b], [], true, false))
  }

  lemma FirstGet(x: char, y: char, a: char, b: char)
    ensures Bumped(AtStart(x, y, a, b)) == (AfterOne(x, a, b), Some(a))
  {
    var w := AtStart(x, y, a, b);
    assert Brought(w.feed, 1) == [a];
    assert AfterRead(w.feed, 1) == AfterOne(x, a, b).feed;
    assert Overwritten(Slid([x, y], 1, 1, 0), 1, [a]) == [x, a];
  }

  lemma SecondGet(x: char, a: char, b: char)
    ensures Bumped(AfterOne(x, a, b)) == (AfterTwo(a, b), Some(b))
  {
    var w := AfterOne(x, a, b);
    assert Brought(w.feed, 1) == [b];
    assert AfterRead(w.feed, 1) == AfterTwo(a, b).feed;
    assert Overwritten(Slid([x, a], 2, 1, 1), 1, [b]) == [a, b];
  }

  lemma FailedGet(a: char, b: char)
    ensures Bumped(AfterTwo(a, b)) == (AfterFailure(a, b), None)
  {
    var w := AfterTwo(a, b);
    assert Brought(w.feed, 1) == [];
    assert AfterRead(w.feed, 1) == AfterFailure(a, b).feed;
    assert Overwritten(Slid([a, b], 2, 1, 1), 1, []) == [b, b];
  }

  method GetTo(buf: IStreamBuf, ghost v: Window, ghost r: Option<char>) returns (c: Option<char>)
    requires buf.Valid() && Bumped(buf.View()) == (v, r)
    modifies buf, buf.buffer, buf.rw
    ensures buf.Valid() && buf.rw == old(buf.rw) && buf.buffer == old(buf.buffer)
    ensures buf.View() == v && c == r
  {
    c := buf.Bump();
  }

  method OpenSmall(a: char, b: char) returns (buf: IStreamBuf, ghost x: char, ghost y: char)
    ensures fresh(buf) && buf.Valid() && fresh(buf.rw) && fresh(buf.buffer) && buf.View() == AtStart(x, y, a, b)
  {
    var source := new Source([a, b], [Chunk(1), Chunk(1), Nothing([])]);
    buf := new IStreamBuf(source, 1, 1);
    x, y := buf.buffer[0], buf.buffer[1];
    assert buf.buffer[..] == [x, y];
  }

  // Two characters in chunks of one, then a read that brings nothing and leaves no garbage.
  method ReadAndFail(a: char, b: char) returns (buf: IStreamBuf, got: seq<Option<char>>)
    ensures fresh(buf) && buf.Valid() && fresh(buf.rw) && buf.View() == AfterFailure(a, b)
    ensures got == [Some(a), Some(b), None]
  {
    ghost var x, y;
    buf, x, y := OpenSmall(a, b);
    FirstGet(x, y, a, b);
    SecondGet(x, a, b);
    FailedGet(a, b);
    var c := GetTo(buf, AfterOne(x, a, b), Some(a));
    var d := GetTo(buf, AfterTwo(a, b), Some(b));
    var e := GetTo(buf, AfterFailure(a, b), None);
    got := [c, d, e];
  }

  /** Going back then gives the second character twice: the window reaches back to the first, but the
      cell where it was has been slid over. */
  method PutBackAfterFailure(a: char, b: char) returns (got: seq<Option<char>>)
    ensures got == [Some(a), Some(b), None, Some(b), Some(b)]
  {
    var buf;
    buf, got := ReadAndFail(a, b);
    var c := buf.Unget();
    var d := buf.Unget();
    got := got + [c, d];
  }
}

/**
 The three threads around a video stream of ggrab - the socket reader, the parser that lists
 pictures (m_fill_video) and the multiplexer that copies and discards them (fill_video_pp with
 xlist) - as one state machine whose steps are the critical sections of those threads.
 Any call that the ring buffer would answer with an exit sets `crashed`.
 */
module VideoList {

  import opened Bytes
  import opened CBuffers
  import opened Clock
  import opened Options

  const MAX_COUNT := 100

  /** What a picture begins with: a sequence start, a group start, or neither. */
  datatype Start = NoStart | StartSeq | StartGop

  /** A listed picture: the stream interval [lptr, lptr + len), its time stamp if there is one, and its start. */
  datatype Elem = Elem(lptr: int, len: int, pts: Option<nat>, start: Start)

  datatype Parser =
    | Seek(from: int, pts: Option<nat>)              // looking for the first stamped sequence start
    | SeekStamp(hit: int)                            // about to copy a PES header found while seeking
    | SeekDiscard(hit: int, pts: Option<nat>, found: bool)
    | Room(lstart: int, header: int, pts: Option<nat>, start: Start)   // waiting for a free list entry
    | FindEnd(lstart: int, header: int, pts: Option<nat>, start: Start)
    | Trim(lstart: int, end: int, pts: Option<nat>, start: Start)
    | Append(elem: Elem, end: int)
    | CopyHeader(end: int)
    | FindStart(end: int, pts: Option<nat>)
    | CopyStart(lstart: int, end: int, pts: Option<nat>, start: Start)

  datatype Muxer =
    | Fetch                                          // waiting in get_elem
    | Copying(act: int, rest: int)
    | Drop                                           // second half of discard_elem

  /**
   `history` and `ends` record every picture ever listed and the PES header that ended it, `taken` those
   discarded from the list and `copied` all that the multiplexer has copied.
   */
  datatype State = State(stream: seq<byte>, lOut: int, list: seq<Elem>, parser: Parser, muxer: Muxer,
                         crashed: bool, history: seq<Elem>, ends: seq<int>, taken: seq<Elem>, copied: seq<byte>)

  /** `hit` is where the ring buffer's search reports its match. */
  datatype Step = Produce(data: seq<byte>) | Parse(hit: int) | Copy(n: nat) | Mux

  const ANY := Masked(0, 0)
  const VIDEO := Masked(0xe0, 0xf0)

  const HEADER := 16

  /** The first match at or after `from`: what SearchStreamId promises to report. */
  ghost predicate FirstMatch(s: seq<byte>, from: int, q: int, sel: byte -> bool) {
    from <= q && MatchAt(s, q, sel) && NoMatch(s, from, q, sel)
  }

  /** RemovePadding's result. */
  function Trimmed(s: seq<byte>, lo: int, hi: int): int
    requires 0 <= lo <= hi <= |s|
  {
    var zeros := ZerosBefore(s, lo, hi);
    hi - lo - if zeros > 4 then zeros - 4 else 0
  }

  /** pes_pts of the header at `q`. */
  function StampOf(s: seq<byte>, q: int): Option<nat>
    requires 0 <= q && q + HEADER <= |s|
  {
    if s[q + 7] >= 0x80 then Some(Pts33(s[q + 9..q + 14])) else None
  }

  /** The start flag for a start code. */
  function StartFor(id: byte): Start {
    if id == 0xb3 then StartSeq else if id == 0xb8 then StartGop else NoStart
  }

  ghost function Init(): State {
    State([], 0, [], Seek(0, None), Fetch, false, [], [], [], [])
  }

  ghost function Crash(s: State): State {
    s.(crashed := true)
  }

  ghost function ParseStep(s: State, hit: int): State {
    var n := |s.stream|;
    match s.parser
    case Seek(from, pts) =>
      if !(s.lOut <= from <= n) then Crash(s)
      else if !FirstMatch(s.stream, from, hit, ANY) then s
      else if VIDEO(s.stream[hit + 3]) then s.(parser := SeekStamp(hit))
      else s.(parser := SeekDiscard(hit, pts, s.stream[hit + 3] == 0xb3 && pts.Some?))
    case SeekStamp(q) =>
      if q < s.lOut then Crash(s)
      else if q < 0 || q + HEADER > n then s
      else s.(parser := SeekDiscard(q, StampOf(s.stream, q), false))
    case SeekDiscard(q, pts, found) =>
      if !(s.lOut <= q <= n) then Crash(s)
      else s.(lOut := q, parser := if found then Room(q, q + 1, pts, StartSeq) else Seek(q + 1, pts))
    case Room(lstart, header, pts, start) =>
      if |s.list| == MAX_COUNT then s else s.(parser := FindEnd(lstart, header, pts, start))
    case FindEnd(lstart, header, pts, start) =>
      if !(s.lOut <= header + 1 <= n) then Crash(s)
      else if !FirstMatch(s.stream, header + 1, hit, VIDEO) then s
      else s.(parser := Trim(lstart, hit, pts, start))
    case Trim(lstart, end, pts, start) =>
      if !(s.lOut <= lstart < n) || lstart < 0 || !(lstart <= end <= n) then Crash(s)
      else s.(parser := Append(Elem(lstart, Trimmed(s.stream, lstart, end), pts, start), end))
    case Append(elem, end) =>
      if |s.list| >= MAX_COUNT then Crash(s)
      else s.(list := s.list + [elem], parser := CopyHeader(end),
              history := s.history + [elem], ends := s.ends + [end])
    case CopyHeader(end) =>
      if end < s.lOut then Crash(s)
      else if end < 0 || end + HEADER > n then s
      else s.(parser := FindStart(end, StampOf(s.stream, end)))
    case FindStart(end, pts) =>
      if !(s.lOut <= end + 1 <= n) then Crash(s)
      else if !FirstMatch(s.stream, end + 1, hit, ANY) then s
      else s.(parser := CopyStart(hit, end, pts, StartFor(s.stream[hit + 3])))
    case CopyStart(lstart, end, pts, start) =>
      if lstart < s.lOut then Crash(s)
      else if lstart + HEADER > n then s
      else s.(parser := Room(lstart, end, pts, start))
  }

  ghost function MuxStep(s: State): State {
    match s.muxer
    case Fetch =>
      if s.list == [] then s else s.(muxer := Copying(s.list[0].lptr, s.list[0].len))
    case Copying(act, rest) =>
      if rest != 0 then s
      else if s.list == [] || !(s.lOut <= s.list[0].lptr <= |s.stream|) then Crash(s)
      else s.(lOut := s.list[0].lptr, muxer := Drop)
    case Drop =>
      if s.list == [] then Crash(s) else s.(list := s.list[1..], muxer := Fetch, taken := s.taken + [s.list[0]])
  }

  /** The bytes from `a` to `b`, as far as they exist. */
  function Part(s: seq<byte>, a: int, b: int): seq<byte> {
    if 0 <= a <= b <= |s| then s[a..b] else []
  }

  ghost function CopyStep(s: State, n: nat): State {
    if !s.muxer.Copying? || n > s.muxer.rest then s
    else if s.muxer.act < s.lOut then Crash(s)
    else if s.muxer.act + n > |s.stream| then s
    else s.(muxer := Copying(s.muxer.act + n, s.muxer.rest - n),
            copied := s.copied + Part(s.stream, s.muxer.act, s.muxer.act + n))
  }

  ghost function Next(s: State, step: Step): State {
    match step
    case Produce(data) => s.(stream := s.stream + data)
    case Parse(hit) => ParseStep(s, hit)
    case Copy(n) => CopyStep(s, n)
    case Mux => MuxStep(s)
  }

  ghost function Run(steps: seq<Step>): State {
    if steps == [] then Init() else Next(Run(steps[..|steps| - 1]), steps[|steps| - 1])
  }

  // ------------------------------------------------------------------ invariant

  /** Intervals in stream order, each ending before the next begins. */
  ghost predicate Ordered(es: seq<Elem>) {
    && (forall i :: 0 <= i < |es| ==> 0 <= es[i].lptr && 0 <= es[i].len)
    && (forall i, j :: 0 <= i < j < |es| ==> es[i].lptr + es[i].len < es[j].lptr)
  }

  ghost predicate EndBy(es: seq<Elem>, pos: int) {
    forall i :: 0 <= i < |es| ==> es[i].lptr + es[i].len <= pos
  }

  ghost predicate StartFrom(es: seq<Elem>, pos: int) {
    forall i :: 0 <= i < |es| ==> pos <= es[i].lptr
  }

  /**
   `e` is a picture of the stream ending at `end`: no video PES header inside, one right
   behind it, and nothing but zeros cut off at its end.
   */
  ghost predicate Picture(s: seq<byte>, e: Elem, end: int) {
    && 0 <= e.lptr <= e.lptr + e.len <= end
    && MatchAt(s, e.lptr, ANY) && MatchAt(s, end, VIDEO)
    && NoMatch(s, e.lptr + 2, end, VIDEO)
    && (forall i :: e.lptr + e.len <= i < end ==> s[i] == 0)
  }

  ghost predicate ParserAt(p: Parser, stream: seq<byte>, lOut: int, history: seq<Elem>) {
    var n := |stream|;
    match p
    case Seek(from, _) => lOut <= from <= n && history == []
    case SeekStamp(q) => lOut <= q && MatchAt(stream, q, VIDEO) && history == []
    case SeekDiscard(q, _, found) => lOut <= q && MatchAt(stream, q, ANY) && history == []
    case Room(lstart, h, _, _) => Between(stream, lOut, history, lstart, h)
    case FindEnd(lstart, h, _, _) => Between(stream, lOut, history, lstart, h)
    case Trim(lstart, end, _, _) =>
      && Pending(stream, lOut, history, lstart, end)
      && NoMatch(stream, lstart + 2, end, VIDEO)
    case Append(e, end) =>
      Pending(stream, lOut, history, e.lptr, end) && Picture(stream, e, end)
    case CopyHeader(end) => Behind(stream, lOut, history, end)
    case FindStart(end, _) => Behind(stream, lOut, history, end)
    case CopyStart(lstart, end, _, _) => Between(stream, lOut, history, lstart, end)
  }

  /** A picture start `lstart` is known; `h` is the PES header it was found behind. */
  ghost predicate Between(stream: seq<byte>, lOut: int, history: seq<Elem>, lstart: int, h: int) {
    && lOut <= h && h + 3 <= |stream| && lOut <= lstart
    && EndBy(history, h) && EndBy(history, lstart - 1)
    && MatchAt(stream, lstart, ANY)
    && h <= lstart + 1 && NoMatch(stream, h + 1, lstart, ANY)
  }

  ghost predicate Pending(stream: seq<byte>, lOut: int, history: seq<Elem>, lstart: int, end: int) {
    && lOut <= lstart <= end && EndBy(history, lstart - 1)
    && MatchAt(stream, lstart, ANY) && MatchAt(stream, end, VIDEO)
  }

  ghost predicate Behind(stream: seq<byte>, lOut: int, history: seq<Elem>, end: int) {
    lOut <= end && MatchAt(stream, end, VIDEO) && EndBy(history, end)
  }

  ghost predicate MuxerAt(m: Muxer, list: seq<Elem>) {
    match m
    case Fetch => true
    case Copying(act, rest) =>
      && list != [] && list[0].lptr <= act && 0 <= rest
      && act + rest == list[0].lptr + list[0].len
    case Drop => list != []
  }

  /** What is known of the pictures listed so far; the list is the tail of that history. */
  ghost predicate Listed(stream: seq<byte>, history: seq<Elem>, ends: seq<int>) {
    && |history| == |ends| && Ordered(history)
    && forall i :: 0 <= i < |history| ==> Picture(stream, history[i], ends[i])
  }

  ghost predicate Tail(list: seq<Elem>, history: seq<Elem>) {
    |list| <= |history| && list == history[|history| - |list|..]
  }

  ghost predicate HasRoom(s: State) {
    if s.parser.FindEnd? || s.parser.Trim? || s.parser.Append? then |s.list| < MAX_COUNT else |s.list| <= MAX_COUNT
  }

  ghost predicate Inv(s: State) {
    && !s.crashed && 0 <= s.lOut <= |s.stream| && HasRoom(s)
    && Listed(s.stream, s.history, s.ends) && Tail(s.list, s.history) && StartFrom(s.list, s.lOut)
    && ParserAt(s.parser, s.stream, s.lOut, s.history) && MuxerAt(s.muxer, s.list)
  }

  // ------------------------------------------------------------------ every step keeps it

  /** Start codes that are complete stay what they are when the stream grows. */
  lemma MatchStable(s: seq<byte>, s': seq<byte>, q: int, sel: byte -> bool)
    requires s <= s' && q + 4 <= |s|
    ensures MatchAt(s, q, sel) == MatchAt(s', q, sel)
  {
  }

  lemma VideoIsAny(s: seq<byte>, q: int)
    requires MatchAt(s, q, VIDEO)
    ensures MatchAt(s, q, ANY)
  {
    assert ((s[q + 3] as bv8) & 0) == 0;
  }

  lemma PictureStable(s: seq<byte>, s': seq<byte>, e: Elem, end: int)
    requires s <= s' && Picture(s, e, end)
    ensures Picture(s', e, end)
  {
    MatchStable(s, s', e.lptr, ANY);
    MatchStable(s, s', end, VIDEO);
    NoMatchExtends(s, s', e.lptr + 2, end, VIDEO);
  }

  lemma BetweenStable(s: seq<byte>, s': seq<byte>, lOut: int, hist: seq<Elem>, lstart: int, h: int)
    requires Between(s, lOut, hist, lstart, h) && s <= s'
    ensures Between(s', lOut, hist, lstart, h)
  {
    MatchStable(s, s', lstart, ANY);
    NoMatchExtends(s, s', h + 1, lstart, ANY);
  }

  lemma ParserStable(p: Parser, s: seq<byte>, s': seq<byte>, lOut: int, hist: seq<Elem>)
    requires ParserAt(p, s, lOut, hist) && s <= s'
    ensures ParserAt(p, s', lOut, hist)
  {
    match p
    case Seek(_, _) =>
    case SeekStamp(q) => MatchStable(s, s', q, VIDEO);
    case SeekDiscard(q, _, _) => MatchStable(s, s', q, ANY);
    case Room(lstart, h, _, _) => BetweenStable(s, s', lOut, hist, lstart, h);
    case FindEnd(lstart, h, _, _) => BetweenStable(s, s', lOut, hist, lstart, h);
    case Trim(lstart, end, _, _) =>
      MatchStable(s, s', lstart, ANY);
      MatchStable(s, s', end, VIDEO);
      NoMatchExtends(s, s', lstart + 2, end, VIDEO);
    case Append(e, end) =>
      PictureStable(s, s', e, end);
    case CopyHeader(end) => MatchStable(s, s', end, VIDEO);
    case FindStart(end, _) => MatchStable(s, s', end, VIDEO);
    case CopyStart(lstart, h, _, _) => BetweenStable(s, s', lOut, hist, lstart, h);
  }

  lemma ListedStable(s: seq<byte>, s': seq<byte>, hist: seq<Elem>, ends: seq<int>)
    requires Listed(s, hist, ends) && s <= s'
    ensures Listed(s', hist, ends)
  {
    forall i | 0 <= i < |hist| ensures Picture(s', hist[i], ends[i]) {
      PictureStable(s, s', hist[i], ends[i]);
    }
  }

  lemma ProduceKeeps(s: State, data: seq<byte>)
    requires Inv(s)
    ensures Inv(Next(s, Produce(data)))
  {
    hide Listed;
    hide ParserAt;
    var s' := Next(s, Produce(data));
    ParserStable(s.parser, s.stream, s'.stream, s.lOut, s.history);
    ListedStable(s.stream, s'.stream, s.history, s.ends);
  }

  /** A video PES header found from `h + 1` on lies no earlier than the first start code there. */
  lemma EndNotBeforeStart(s: seq<byte>, lstart: int, h: int, end: int)
    requires NoMatch(s, h + 1, lstart, ANY) && FirstMatch(s, h + 1, end, VIDEO) && h <= lstart + 1
    ensures lstart <= end && NoMatch(s, lstart + 2, end, VIDEO)
  {
    VideoIsAny(s, end);
  }

  /** Discarding up to the start of a listed picture leaves everything the parser still needs. */
  lemma DiscardKeepsParser(s: State)
    requires Inv(s) && s.list != []
    ensures ParserAt(s.parser, s.stream, s.list[0].lptr, s.history)
    ensures 0 <= s.list[0].lptr <= |s.stream| && 0 <= s.list[0].len && StartFrom(s.list, s.list[0].lptr)
  {
    hide NoMatch;
    hide MatchAt;
    var k := |s.history| - |s.list|;
    assert s.list[0] == s.history[k];
    assert Picture(s.stream, s.history[k], s.ends[k]);
    PictureInside(s.stream, s.history[k], s.ends[k]);
    forall i | 0 <= i < |s.list| ensures s.list[0].lptr <= s.list[i].lptr {
      assert s.list[i] == s.history[k + i];
    }
  }

  lemma PictureInside(s: seq<byte>, e: Elem, end: int)
    requires Picture(s, e, end)
    ensures end <= |s|
  {
  }

  /** The seeking phase: nothing is listed yet. */
  lemma SeekKeeps(s: State, hit: int)
    requires Inv(s) && (s.parser.Seek? || s.parser.SeekStamp? || s.parser.SeekDiscard?)
    ensures Inv(ParseStep(s, hit))
  {
    hide NoMatch;
    hide Listed;
    assert s.list == [];
    if s.parser.SeekStamp? {
      VideoIsAny(s.stream, s.parser.hit);
    }
    if s.parser.SeekDiscard? {
      NoMatchEmpty(s.stream, s.parser.hit + 2, s.parser.hit, ANY);
    }
  }

  /** What the invariant says about the parser. */
  lemma ParserFacts(s: State)
    requires Inv(s)
    ensures !s.crashed && 0 <= s.lOut <= |s.stream| && HasRoom(s) && ParserAt(s.parser, s.stream, s.lOut, s.history)
  {
    hide ParserAt;
    hide HasRoom;
  }

  /** A step that changes nothing but the parser's own position. */
  lemma NewParser(s: State, p: Parser)
    requires Inv(s) && ParserAt(p, s.stream, s.lOut, s.history) && HasRoom(s.(parser := p))
    ensures Inv(s.(parser := p))
  {
    hide ParserAt;
    hide HasRoom;
    hide Listed;
    hide Tail;
    hide StartFrom;
    hide MuxerAt;
  }

  /** Finding, trimming and copying are such steps. */
  lemma LocateKeeps(s: State, hit: int)
    requires Inv(s) && (s.parser.Room? || s.parser.FindEnd? || s.parser.Trim? || s.parser.CopyHeader?
                        || s.parser.FindStart? || s.parser.CopyStart?)
    ensures Inv(ParseStep(s, hit))
  {
    hide Inv;
    ParserFacts(s);
    var s' := ParseStep(s, hit);
    LocateMoves(s, hit);
    hide ParseStep;
    hide ParserAt;
    NewParser(s, s'.parser);
  }

  lemma LocateMoves(s: State, hit: int)
    requires !s.crashed && 0 <= s.lOut <= |s.stream| && HasRoom(s) && ParserAt(s.parser, s.stream, s.lOut, s.history)
    requires s.parser.Room? || s.parser.FindEnd? || s.parser.Trim? || s.parser.CopyHeader? || s.parser.FindStart?
             || s.parser.CopyStart?
    ensures var s' := ParseStep(s, hit);
            s' == s.(parser := s'.parser) && HasRoom(s') && ParserAt(s'.parser, s.stream, s.lOut, s.history)
  {
    hide NoMatch;
    hide EndBy;
    match s.parser
    case Room(_, _, _, _) =>
    case FindEnd(lstart, h, _, _) => FindEndMoves(s, hit, lstart, h);
    case Trim(lstart, end, _, _) => TrimMoves(s, hit, lstart, end);
    case CopyHeader(_) =>
    case FindStart(end, _) => FindStartMoves(s, hit, end);
    case CopyStart(_, _, _, _) =>
  }

  lemma FindEndMoves(s: State, hit: int, lstart: int, h: int)
    requires s.parser.FindEnd? && s.parser.lstart == lstart && s.parser.header == h
    requires 0 <= s.lOut <= |s.stream| && HasRoom(s)
             && Between(s.stream, s.lOut, s.history, lstart, h)
    ensures var s' := ParseStep(s, hit);
            s' == s.(parser := s'.parser) && HasRoom(s') && ParserAt(s'.parser, s.stream, s.lOut, s.history)
  {
    hide NoMatch;
    hide EndBy;
    if FirstMatch(s.stream, h + 1, hit, VIDEO) {
      EndNotBeforeStart(s.stream, lstart, h, hit);
    }
  }

  lemma TrimMoves(s: State, hit: int, lstart: int, end: int)
    requires s.parser.Trim? && s.parser.lstart == lstart && s.parser.end == end
    requires 0 <= s.lOut <= |s.stream| && HasRoom(s)
    requires Pending(s.stream, s.lOut, s.history, lstart, end) && NoMatch(s.stream, lstart + 2, end, VIDEO)
    ensures var s' := ParseStep(s, hit);
            s' == s.(parser := s'.parser) && HasRoom(s') && ParserAt(s'.parser, s.stream, s.lOut, s.history)
  {
    hide NoMatch;
    hide EndBy;
  }

  lemma FindStartMoves(s: State, hit: int, end: int)
    requires s.parser.FindStart? && s.parser.end == end && 0 <= s.lOut <= |s.stream| && HasRoom(s)
             && Behind(s.stream, s.lOut, s.history, end)
    ensures var s' := ParseStep(s, hit);
            s' == s.(parser := s'.parser) && HasRoom(s') && ParserAt(s'.parser, s.stream, s.lOut, s.history)
  {
    hide NoMatch;
  }

  lemma ListedMore(stream: seq<byte>, history: seq<Elem>, ends: seq<int>, e: Elem, end: int)
    requires Listed(stream, history, ends) && Picture(stream, e, end) && EndBy(history, e.lptr - 1)
    ensures Listed(stream, history + [e], ends + [end]) && EndBy(history + [e], end)
  {
    hide NoMatch;
    hide MatchAt;
  }

  lemma TailMore(list: seq<Elem>, history: seq<Elem>, e: Elem)
    requires Tail(list, history)
    ensures Tail(list + [e], history + [e])
  {
  }

  lemma MuxerMore(m: Muxer, list: seq<Elem>, e: Elem)
    requires MuxerAt(m, list)
    ensures MuxerAt(m, list + [e])
  {
  }

  /** The state in which a picture has been listed. */
  ghost function WithPicture(s: State, e: Elem, end: int): State {
    s.(list := s.list + [e], parser := CopyHeader(end), history := s.history + [e], ends := s.ends + [end])
  }

  lemma AppendStep(s: State, hit: int)
    requires s.parser.Append? && HasRoom(s)
    ensures ParseStep(s, hit) == WithPicture(s, s.parser.elem, s.parser.end)
  {
  }

  lemma AppendKeeps(s: State, hit: int)
    requires Inv(s) && s.parser.Append?
    ensures Inv(ParseStep(s, hit))
  {
    ParserFacts(s);
    AppendStep(s, hit);
    hide ParseStep;
    PictureListed(s, s.parser.elem, s.parser.end);
  }

  lemma PictureListed(s: State, e: Elem, end: int)
    requires Inv(s) && s.parser == Append(e, end)
    ensures Inv(WithPicture(s, e, end))
  {
    hide ParserAt;
    hide Listed;
    hide Tail;
    hide MuxerAt;
    hide StartFrom;
    ParserFacts(s);
    AppendBehind(s.stream, s.lOut, s.history, s.ends, e, end);
    TailMore(s.list, s.history, e);
    MuxerMore(s.muxer, s.list, e);
    StartMore(s.list, s.lOut, e);
  }

  lemma StartMore(list: seq<Elem>, pos: int, e: Elem)
    requires StartFrom(list, pos) && pos <= e.lptr
    ensures StartFrom(list + [e], pos)
  {
  }

  lemma AppendBehind(stream: seq<byte>, lOut: int, history: seq<Elem>, ends: seq<int>, e: Elem, end: int)
    requires ParserAt(Append(e, end), stream, lOut, history) && Listed(stream, history, ends)
    ensures lOut <= e.lptr && ParserAt(CopyHeader(end), stream, lOut, history + [e])
            && Listed(stream, history + [e], ends + [end])
  {
    hide Listed;
    hide EndBy;
    hide NoMatch;
    hide MatchAt;
    ListedMore(stream, history, ends, e, end);
  }

  lemma CopyKeeps(s: State, n: nat)
    requires Inv(s)
    ensures Inv(Next(s, Copy(n)))
  {
    hide Listed;
    hide ParserAt;
  }

  lemma MuxKeeps(s: State)
    requires Inv(s)
    ensures Inv(Next(s, Mux))
  {
    hide Listed;
    hide ParserAt;
    if s.list != [] {
      DiscardKeepsParser(s);
      assert s.list[1..] == s.history[|s.history| - |s.list[1..]|..];
    }
  }

  lemma NextKeeps(s: State, step: Step)
    requires Inv(s)
    ensures Inv(Next(s, step))
  {
    hide Inv;
    hide ParseStep;
    match step
    case Produce(data) => ProduceKeeps(s, data);
    case Parse(hit) =>
      match s.parser {
        case Seek(_, _) => SeekKeeps(s, hit);
        case SeekStamp(_) => SeekKeeps(s, hit);
        case SeekDiscard(_, _, _) => SeekKeeps(s, hit);
        case Append(_, _) => AppendKeeps(s, hit);
        case _ => LocateKeeps(s, hit);
      }
    case Copy(n) => CopyKeeps(s, n);
    case Mux => MuxKeeps(s);
  }

  lemma {:induction false} InvOfRun(steps: seq<Step>)
    ensures Inv(Run(steps))
  {
    hide Inv;
    hide Next;
    if steps == [] {
      InitInv();
    } else {
      InvOfRun(steps[..|steps| - 1]);
      NextKeeps(Run(steps[..|steps| - 1]), steps[|steps| - 1]);
    }
  }

  lemma InitInv()
    ensures Inv(Init())
  {
  }

  /**
   In every run of the three threads no ring buffer call hits an underrun exit, the list never
   overflows, and all pictures ever listed are ordered, disjoint and delimited by video PES headers.
   */
  lemma EveryRunIsSafe(steps: seq<Step>)
    ensures var s := Run(steps);
            && !s.crashed && |s.list| <= MAX_COUNT
            && Listed(s.stream, s.history, s.ends)
            && Tail(s.list, s.history) && StartFrom(s.list, s.lOut)
  {
    hide Run;
    hide Listed;
    InvOfRun(steps);
  }
}

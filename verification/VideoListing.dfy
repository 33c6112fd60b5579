/**
 Which pictures the parser lists: those of one scan through the stream from its beginning, in order,
 however reading, parsing and multiplexing interleave, and each of them as soon as there is room.
 */
module VideoListing {

  import opened Bytes
  import opened CBuffers
  import opened Options
  import opened VideoList

  // ------------------------------------------------------------------ one scan of a stream

  /** The first start code at or after `from` that `sel` accepts. */
  ghost function FirstFrom(s: seq<byte>, from: nat, sel: byte -> bool): (q: Option<nat>)
    ensures q.Some? ==> from <= q.value && q.value + 4 <= |s|
    decreases |s| - from
  {
    if from + 4 > |s| then None else if MatchAt(s, from, sel) then Some(from) else FirstFrom(s, from + 1, sel)
  }

  datatype Begin = Begin(at: nat, pts: Option<nat>)

  /**
   The first sequence start, at or after `from`, for which the video PES header before it is stamped.
   `pts` is the stamp of the header before `from`. A header is read only when it is complete.
   */
  ghost function FirstStart(s: seq<byte>, from: nat, pts: Option<nat>): (b: Option<Begin>)
    ensures b.Some? ==> from <= b.value.at && b.value.at + 4 <= |s|
    decreases |s| - from
  {
    if from + 4 > |s| then None
    else if MatchAt(s, from, VIDEO) then
      if from + HEADER > |s| then None else FirstStart(s, from + 1, StampOf(s, from))
    else if MatchAt(s, from, ANY) && s[from + 3] == 0xb3 && pts.Some? then Some(Begin(from, pts))
    else FirstStart(s, from + 1, pts)
  }

  /** The pictures from the one at `lstart` on, which ends at the first video header behind `h`. */
  ghost function From(s: seq<byte>, lstart: nat, h: nat, pts: Option<nat>, start: Start): (es: seq<Elem>)
    decreases |s| - h, 1
  {
    var end := FirstFrom(s, h + 1, VIDEO);
    if end.None? || end.value < lstart then []
    else [Elem(lstart, Trimmed(s, lstart, end.value), pts, start)] + Behind(s, end.value)
  }

  /** The pictures behind the header at `end`: the next one begins at the next start code. */
  ghost function Behind(s: seq<byte>, end: nat): (es: seq<Elem>)
    decreases |s| - end, 2
  {
    if end + HEADER > |s| then []
    else
      var next := FirstFrom(s, end + 1, ANY);
      if next.None? || next.value + HEADER > |s| then []
      else From(s, next.value, end, StampOf(s, end), StartFor(s[next.value + 3]))
  }

  ghost function Sought(s: seq<byte>, from: nat, pts: Option<nat>): (es: seq<Elem>) {
    var b := FirstStart(s, from, pts);
    if b.None? then [] else From(s, b.value.at, b.value.at + 1, b.value.pts, StartSeq)
  }

  /** The pictures of a stream. */
  ghost function Pictures(s: seq<byte>): (es: seq<Elem>) {
    Sought(s, 0, None)
  }

  // ------------------------------------------------------------------ what the parser has still to list

  ghost predicate Sensible(p: Parser) {
    match p
    case Seek(from, _) => 0 <= from
    case SeekStamp(q) => 0 <= q
    case SeekDiscard(q, _, _) => 0 <= q
    case Room(l, h, _, _) => 0 <= l && 0 <= h
    case FindEnd(l, h, _, _) => 0 <= l && 0 <= h
    case Trim(l, end, _, _) => 0 <= l <= end
    case Append(_, end) => 0 <= end
    case CopyHeader(end) => 0 <= end
    case FindStart(end, _) => 0 <= end
    case CopyStart(l, end, _, _) => 0 <= l && 0 <= end
  }

  ghost function Rest(s: seq<byte>, p: Parser): (es: seq<Elem>)
    requires Sensible(p)
  {
    match p
    case Seek(from, pts) => Sought(s, from, pts)
    case SeekStamp(q) => Sought(s, q, None)
    case SeekDiscard(q, pts, found) => if found then From(s, q, q + 1, pts, StartSeq) else Sought(s, q + 1, pts)
    case Room(l, h, pts, start) => From(s, l, h, pts, start)
    case FindEnd(l, h, pts, start) => From(s, l, h, pts, start)
    case Trim(l, end, pts, start) =>
      if end > |s| then [] else [Elem(l, Trimmed(s, l, end), pts, start)] + Behind(s, end)
    case Append(e, end) => [e] + Behind(s, end)
    case CopyHeader(end) => Behind(s, end)
    case FindStart(end, pts) => Behind(s, end)
    case CopyStart(l, end, pts, start) => if l + HEADER > |s| then [] else From(s, l, end, pts, start)
  }

  /** The stamp that the parser carries is that of the header. */
  ghost predicate Stamped(s: seq<byte>, p: Parser) {
    p.FindStart? ==> 0 <= p.end && p.end + HEADER <= |s| && p.pts == StampOf(s, p.end)
  }

  // ------------------------------------------------------------------ searching

  lemma {:induction false} FirstIs(s: seq<byte>, from: nat, q: nat, sel: byte -> bool)
    requires from <= q && MatchAt(s, q, sel) && NoMatch(s, from, q, sel)
    ensures FirstFrom(s, from, sel) == Some(q)
    decreases q - from
  {
    hide MatchAt;
    MatchInside(s, q, sel);
    if from < q {
      NoMatchRest(s, from, q, sel);
      FirstIs(s, from + 1, q, sel);
    }
  }

  lemma NoMatchRest(s: seq<byte>, from: nat, q: nat, sel: byte -> bool)
    requires from < q && NoMatch(s, from, q, sel)
    ensures !MatchAt(s, from, sel) && NoMatch(s, from + 1, q, sel)
  {
  }

  lemma MatchInside(s: seq<byte>, q: int, sel: byte -> bool)
    requires MatchAt(s, q, sel)
    ensures 0 <= q && q + 4 <= |s|
  {
  }

  /** What is found in a stream is found in every longer one. */
  lemma FoundLater(s: seq<byte>, t: seq<byte>, from: nat, q: int, sel: byte -> bool)
    requires s <= t && FirstMatch(s, from, q, sel)
    ensures FirstFrom(t, from, sel) == Some(q) && MatchAt(t, q, sel) && NoMatch(t, from, q, sel)
  {
    MatchInside(s, q, sel);
    MatchStable(s, t, q, sel);
    NoMatchExtends(s, t, from, q, sel);
    FirstIs(t, from, q, sel);
  }

  /** And the converse. */
  lemma {:induction false} FirstFound(s: seq<byte>, from: nat, sel: byte -> bool)
    ensures FirstFrom(s, from, sel).Some? ==> FirstMatch(s, from, FirstFrom(s, from, sel).value, sel)
    decreases |s| - from
  {
    hide MatchAt;
    if from + 4 <= |s| && !MatchAt(s, from, sel) {
      FirstFound(s, from + 1, sel);
    }
  }

  /** Where there is no start code the search for the beginning goes on. */
  lemma {:induction false} SoughtOn(s: seq<byte>, from: nat, q: nat, pts: Option<nat>)
    requires from <= q && q + 4 <= |s| && NoMatch(s, from, q, ANY)
    ensures FirstStart(s, from, pts) == FirstStart(s, q, pts)
    decreases q - from
  {
    if from < q {
      NoMatchRest(s, from, q, ANY);
      NoVideo(s, from);
      hide MatchAt;
      hide NoMatch;
      SoughtOn(s, from + 1, q, pts);
    }
  }

  lemma NoVideo(s: seq<byte>, q: int)
    requires !MatchAt(s, q, ANY)
    ensures !MatchAt(s, q, VIDEO)
  {
    if MatchAt(s, q, VIDEO) {
      VideoIsAny(s, q);
    }
  }

  // ------------------------------------------------------------------ every step of the parser keeps to the scan

  lemma StampStable(s: seq<byte>, t: seq<byte>, q: int)
    requires s <= t && 0 <= q && q + HEADER <= |s|
    ensures StampOf(t, q) == StampOf(s, q)
  {
    assert t[q + 9..q + 14] == s[q + 9..q + 14];
  }

  lemma {:induction false} ZerosStable(s: seq<byte>, t: seq<byte>, lo: int, hi: int)
    requires s <= t && 0 <= lo <= hi <= |s|
    ensures ZerosBefore(t, lo, hi) == ZerosBefore(s, lo, hi)
    decreases hi - lo
  {
    if hi != lo && s[hi - 1] == 0 {
      ZerosStable(s, t, lo, hi - 1);
    }
  }

  /**
   A step of the parser lists the next picture of the scan or none, as seen in every stream `t` that
   this one may grow to.
   */
  ghost predicate Tells(s: State, s': State, t: seq<byte>)
    requires Sensible(s.parser)
  {
    && Sensible(s'.parser) && Stamped(s'.stream, s'.parser)
    && s.history + Rest(t, s.parser) == s'.history + Rest(t, s'.parser)
  }

  /** A step that lists nothing. */
  lemma MovesOn(s: State, p: Parser, t: seq<byte>)
    requires Sensible(s.parser) && Sensible(p) && Stamped(s.stream, p) && Rest(t, s.parser) == Rest(t, p)
    ensures Tells(s, s.(parser := p), t)
  {
  }

  lemma SeekTells(s: State, hit: int, t: seq<byte>)
    requires Inv(s) && Sensible(s.parser) && s.stream <= t && s.parser.Seek?
    ensures Tells(s, ParseStep(s, hit), t)
  {
    hide *;
    SeekBounds(s);
    SeekStep(s, hit);
    SeekRests(s.stream, s.parser, hit, t);
    MovesOn(s, SeekNext(s.stream, s.parser, hit), t);
  }

  /** Where a search for the beginning goes on. */
  ghost function SeekNext(stream: seq<byte>, p: Parser, hit: int): (q: Parser)
    requires p.Seek?
  {
    if !FirstMatch(stream, p.from, hit, ANY) then p
    else if VIDEO(stream[hit + 3]) then SeekStamp(hit)
    else SeekDiscard(hit, p.pts, stream[hit + 3] == 0xb3 && p.pts.Some?)
  }

  lemma SeekStep(s: State, hit: int)
    requires s.parser.Seek? && s.lOut <= s.parser.from <= |s.stream|
    ensures ParseStep(s, hit) == s.(parser := SeekNext(s.stream, s.parser, hit))
  {
  }

  lemma SeekRests(stream: seq<byte>, p: Parser, hit: int, t: seq<byte>)
    requires p.Seek? && Sensible(p) && stream <= t
    ensures var q := SeekNext(stream, p, hit); Sensible(q) && Stamped(stream, q) && Rest(t, p) == Rest(t, q)
  {
    hide *;
    SeekStays(stream, p, hit);
    if FirstMatch(stream, p.from, hit, ANY) {
      FromSensible(p);
      FoundLater(stream, t, p.from, hit, ANY);
      MatchOf(stream, p.from, hit, ANY);
      assert stream[hit + 3] == t[hit + 3];
      SoughtFrom(t, p.from, hit, p.pts);
      RestSought(t, p);
      SeekGoes(stream, p, hit, t);
    }
  }

  lemma FromSensible(p: Parser)
    requires p.Seek? && Sensible(p)
    ensures 0 <= p.from
  {
  }

  lemma MatchOf(s: seq<byte>, from: int, q: int, sel: byte -> bool)
    requires FirstMatch(s, from, q, sel)
    ensures from <= q && q + 4 <= |s| && MatchAt(s, q, sel)
  {
    hide NoMatch;
  }

  lemma SeekStays(stream: seq<byte>, p: Parser, hit: int)
    requires p.Seek? && Sensible(p)
    ensures Stamped(stream, p) && (!FirstMatch(stream, p.from, hit, ANY) ==> SeekNext(stream, p, hit) == p)
  {
    hide FirstMatch;
  }

  lemma RestSought(t: seq<byte>, p: Parser)
    requires p.Seek? && Sensible(p)
    ensures 0 <= p.from && Rest(t, p) == Sought(t, p.from, p.pts)
  {
    hide Sought;
  }

  lemma SeekGoes(stream: seq<byte>, p: Parser, hit: int, t: seq<byte>)
    requires p.Seek? && FirstMatch(stream, p.from, hit, ANY) && 0 <= hit && hit + 4 <= |stream|
    ensures var q := SeekNext(stream, p, hit);
            && Sensible(q) && Stamped(stream, q)
            && Rest(t, q) == if VIDEO(stream[hit + 3]) then Sought(t, hit, None)
                             else if stream[hit + 3] == 0xb3 && p.pts.Some? then From(t, hit, hit + 1, p.pts, StartSeq)
                             else Sought(t, hit + 1, p.pts)
  {
    hide FirstMatch;
    hide Sought;
    hide From;
    hide VIDEO;
  }

  lemma SoughtFrom(t: seq<byte>, from: nat, hit: nat, pts: Option<nat>)
    requires from <= hit && hit + 4 <= |t| && NoMatch(t, from, hit, ANY) && MatchAt(t, hit, ANY)
    ensures if VIDEO(t[hit + 3]) then Sought(t, from, pts) == Sought(t, hit, None)
            else if t[hit + 3] == 0xb3 && pts.Some? then Sought(t, from, pts) == From(t, hit, hit + 1, pts, StartSeq)
            else Sought(t, from, pts) == Sought(t, hit + 1, pts)
  {
    hide *;
    SoughtOn(t, from, hit, pts);
    SoughtAt(t, hit, pts);
    SoughtAlike(t, from, pts, hit, None);
    SoughtAlike(t, from, pts, hit + 1, pts);
    SoughtHere(t, from, pts, hit);
  }

  lemma SoughtAlike(t: seq<byte>, a: nat, p: Option<nat>, b: nat, q: Option<nat>)
    ensures FirstStart(t, a, p) == FirstStart(t, b, q) ==> Sought(t, a, p) == Sought(t, b, q)
  {
    hide FirstStart;
    hide From;
  }

  lemma SoughtHere(t: seq<byte>, from: nat, pts: Option<nat>, q: nat)
    ensures FirstStart(t, from, pts) == Some(Begin(q, pts)) ==> Sought(t, from, pts) == From(t, q, q + 1, pts, StartSeq)
  {
    hide FirstStart;
    hide From;
  }

  lemma SeekBounds(s: State)
    requires Inv(s) && s.parser.Seek?
    ensures s.lOut <= s.parser.from <= |s.stream|
  {
    hide Listed;
  }

  lemma VideoThere(t: seq<byte>, q: int)
    requires MatchAt(t, q, ANY)
    ensures MatchAt(t, q, VIDEO) <==> VIDEO(t[q + 3])
  {
  }

  /** What a start code means for the beginning. */
  lemma SoughtAt(t: seq<byte>, q: nat, pts: Option<nat>)
    requires MatchAt(t, q, ANY)
    ensures if VIDEO(t[q + 3]) then FirstStart(t, q, pts) == FirstStart(t, q, None)
            else if t[q + 3] == 0xb3 && pts.Some? then FirstStart(t, q, pts) == Some(Begin(q, pts))
            else FirstStart(t, q, pts) == FirstStart(t, q + 1, pts)
  {
    VideoThere(t, q);
  }

  lemma SeekStampTells(s: State, hit: int, t: seq<byte>)
    requires Inv(s) && Sensible(s.parser) && s.stream <= t && s.parser.SeekStamp?
    ensures Tells(s, ParseStep(s, hit), t)
  {
    var q := s.parser.hit;
    hide *;
    SeekStampBounds(s);
    SeekStampStep(s, hit);
    if q + 16 <= |s.stream| {
      StampRest(s.stream, q, t);
      MovesOn(s, SeekDiscard(q, StampOf(s.stream, q), false), t);
    } else {
      StampWaits(s, t);
    }
  }

  lemma StampWaits(s: State, t: seq<byte>)
    requires s.parser.SeekStamp? && Sensible(s.parser)
    ensures Tells(s, s, t)
  {
  }

  lemma SeekStampStep(s: State, hit: int)
    requires s.parser.SeekStamp? && s.lOut <= s.parser.hit && 0 <= s.parser.hit
    ensures var q := s.parser.hit;
            ParseStep(s, hit) == if q + 16 > |s.stream| then s
                                 else s.(parser := SeekDiscard(q, StampOf(s.stream, q), false))
  {
  }

  lemma StampRest(stream: seq<byte>, q: int, t: seq<byte>)
    requires stream <= t && 0 <= q && q + 16 <= |stream| && MatchAt(stream, q, VIDEO)
    ensures var p := SeekDiscard(q, StampOf(stream, q), false);
            Sensible(p) && Sensible(SeekStamp(q)) && Stamped(stream, p) && Rest(t, SeekStamp(q)) == Rest(t, p)
  {
    StampStable(stream, t, q);
    hide *;
    MatchStable(stream, t, q, VIDEO);
    VideoStart(t, q);
    SoughtAlike(t, q, None, q + 1, StampOf(t, q));
    StampRests(t, q, StampOf(stream, q));
    StampedAnyhow(stream, q, StampOf(stream, q));
  }

  /** A complete video header is passed, and its stamp kept. */
  lemma VideoStart(t: seq<byte>, q: nat)
    requires MatchAt(t, q, VIDEO) && q + 16 <= |t|
    ensures FirstStart(t, q, None) == FirstStart(t, q + 1, StampOf(t, q))
  {
    hide StampOf;
  }

  lemma StampRests(t: seq<byte>, q: nat, pts: Option<nat>)
    ensures Sensible(SeekStamp(q)) && Sensible(SeekDiscard(q, pts, false))
    ensures Rest(t, SeekStamp(q)) == Sought(t, q, None)
    ensures Rest(t, SeekDiscard(q, pts, false)) == Sought(t, q + 1, pts)
  {
    hide Sought;
  }

  lemma StampedAnyhow(stream: seq<byte>, q: nat, pts: Option<nat>)
    ensures Stamped(stream, SeekDiscard(q, pts, false))
  {
  }


  lemma SeekStampBounds(s: State)
    requires Inv(s) && s.parser.SeekStamp?
    ensures s.lOut <= s.parser.hit && MatchAt(s.stream, s.parser.hit, VIDEO)
  {
    hide Listed;
    hide MatchAt;
  }

  lemma SeekDiscardTells(s: State, hit: int, t: seq<byte>)
    requires Inv(s) && Sensible(s.parser) && s.stream <= t && s.parser.SeekDiscard?
    ensures Tells(s, ParseStep(s, hit), t)
  {
    hide *;
    DiscardBounds(s);
    SeekDiscardStep(s, hit);
    SeekDiscardRest(s.stream, s.parser, t);
    MovesOnAt(s, s.parser.hit, SeekDiscardNext(s.parser), t);
  }

  ghost function SeekDiscardNext(p: Parser): (q: Parser)
    requires p.SeekDiscard?
  {
    if p.found then Room(p.hit, p.hit + 1, p.pts, StartSeq) else Seek(p.hit + 1, p.pts)
  }

  lemma SeekDiscardStep(s: State, hit: int)
    requires s.parser.SeekDiscard? && s.lOut <= s.parser.hit <= |s.stream|
    ensures ParseStep(s, hit) == s.(lOut := s.parser.hit, parser := SeekDiscardNext(s.parser))
  {
  }

  lemma SeekDiscardRest(stream: seq<byte>, p: Parser, t: seq<byte>)
    requires p.SeekDiscard? && Sensible(p)
    ensures var q := SeekDiscardNext(p); Sensible(q) && Stamped(stream, q) && Rest(t, p) == Rest(t, q)
  {
    hide From;
    hide Sought;
  }

  lemma MovesOnAt(s: State, lOut: int, p: Parser, t: seq<byte>)
    requires Sensible(s.parser) && Sensible(p) && Stamped(s.stream, p) && Rest(t, s.parser) == Rest(t, p)
    ensures Tells(s, s.(lOut := lOut, parser := p), t)
  {
    hide Rest;
    hide Sensible;
  }

  lemma DiscardBounds(s: State)
    requires Inv(s) && s.parser.SeekDiscard?
    ensures 0 <= s.lOut <= s.parser.hit && s.parser.hit + 4 <= |s.stream|
  {
    hide Listed;
  }

  lemma FindEndTells(s: State, hit: int, t: seq<byte>)
    requires Inv(s) && Sensible(s.parser) && s.stream <= t && s.parser.FindEnd?
    ensures Tells(s, ParseStep(s, hit), t)
  {
    hide *;
    FindEndBounds(s);
    FindEndStep(s, hit);
    FindEndRests(s.stream, s.parser, hit, t);
    MovesOn(s, FindEndNext(s.stream, s.parser, hit), t);
  }

  ghost function FindEndNext(stream: seq<byte>, p: Parser, hit: int): (q: Parser)
    requires p.FindEnd?
  {
    if !FirstMatch(stream, p.header + 1, hit, VIDEO) then p else Trim(p.lstart, hit, p.pts, p.start)
  }

  lemma FindEndStep(s: State, hit: int)
    requires s.parser.FindEnd? && 0 <= s.lOut <= s.parser.header && s.parser.header + 3 <= |s.stream|
    ensures ParseStep(s, hit) == s.(parser := FindEndNext(s.stream, s.parser, hit))
  {
    hide FirstMatch;
  }

  lemma FindEndRests(stream: seq<byte>, p: Parser, hit: int, t: seq<byte>)
    requires p.FindEnd? && Sensible(p) && stream <= t
    requires p.header <= p.lstart + 1 && NoMatch(stream, p.header + 1, p.lstart, ANY)
    ensures var q := FindEndNext(stream, p, hit); Sensible(q) && Stamped(stream, q) && Rest(t, p) == Rest(t, q)
  {
    if FirstMatch(stream, p.header + 1, hit, VIDEO) {
      EndNotBeforeStart(stream, p.lstart, p.header, hit);
      FoundLater(stream, t, p.header + 1, hit, VIDEO);
      MatchInside(stream, hit, VIDEO);
      hide FirstMatch;
      FromIs(t, p.lstart, p.header, p.pts, p.start, hit);
    }
    hide FirstMatch;
    hide MatchAt;
    hide NoMatch;
    hide From;
    hide Behind;
    hide Trimmed;
  }

  lemma FromIs(t: seq<byte>, l: nat, h: nat, pts: Option<nat>, start: Start, end: nat)
    requires FirstFrom(t, h + 1, VIDEO) == Some(end) && l <= end
    ensures end <= |t| && From(t, l, h, pts, start) == [Elem(l, Trimmed(t, l, end), pts, start)] + Behind(t, end)
  {
    hide FirstFrom;
    hide Behind;
    hide Trimmed;
  }

  lemma FindEndBounds(s: State)
    requires Inv(s) && s.parser.FindEnd?
    ensures var l, h := s.parser.lstart, s.parser.header;
            && 0 <= s.lOut <= h && h + 3 <= |s.stream| && h <= l + 1 && NoMatch(s.stream, h + 1, l, ANY)
  {
    hide Listed;
    hide MatchAt;
    hide NoMatch;
  }

  lemma TrimTells(s: State, hit: int, t: seq<byte>)
    requires Inv(s) && Sensible(s.parser) && s.stream <= t && s.parser.Trim?
    ensures Tells(s, ParseStep(s, hit), t)
  {
    hide Inv;
    TrimBounds(s);
    ZerosStable(s.stream, t, s.parser.lstart, s.parser.end);
    hide ZerosBefore;
    hide Behind;
  }

  lemma TrimBounds(s: State)
    requires Inv(s) && s.parser.Trim?
    ensures s.lOut <= s.parser.lstart <= s.parser.end && s.parser.end + 4 <= |s.stream| && 0 <= s.lOut
  {
    hide Listed;
    hide NoMatch;
  }

  lemma AppendTells(s: State, hit: int, t: seq<byte>)
    requires Inv(s) && Sensible(s.parser) && s.stream <= t && s.parser.Append?
    ensures Tells(s, ParseStep(s, hit), t)
  {
    hide *;
    RoomFor(s);
    AppendStep(s, hit);
    AppendRests(s.history, s.parser, t);
    AppendedTells(s, t);
  }

  lemma RoomFor(s: State)
    requires Inv(s)
    ensures HasRoom(s)
  {
    hide HasRoom;
  }

  lemma AppendRests(history: seq<Elem>, p: Parser, t: seq<byte>)
    requires p.Append? && Sensible(p)
    ensures Sensible(CopyHeader(p.end))
    ensures history + Rest(t, p) == (history + [p.elem]) + Rest(t, CopyHeader(p.end))
  {
    hide Behind;
    assert history + ([p.elem] + Behind(t, p.end)) == (history + [p.elem]) + Behind(t, p.end);
  }

  lemma AppendedTells(s: State, t: seq<byte>)
    requires s.parser.Append? && Sensible(s.parser) && Sensible(CopyHeader(s.parser.end))
    requires s.history + Rest(t, s.parser) == (s.history + [s.parser.elem]) + Rest(t, CopyHeader(s.parser.end))
    ensures Tells(s, WithPicture(s, s.parser.elem, s.parser.end), t)
  {
    hide Rest;
  }

  lemma FindStartTells(s: State, hit: int, t: seq<byte>)
    requires Inv(s) && Sensible(s.parser) && Stamped(s.stream, s.parser) && s.stream <= t && s.parser.FindStart?
    ensures Tells(s, ParseStep(s, hit), t)
  {
    hide *;
    FindStartBounds(s);
    FindStartStep(s, hit);
    FindStartRests(s.stream, s.parser, hit, t);
    MovesOn(s, FindStartNext(s.stream, s.parser, hit), t);
  }

  ghost function FindStartNext(stream: seq<byte>, p: Parser, hit: int): (q: Parser)
    requires p.FindStart?
  {
    if !FirstMatch(stream, p.end + 1, hit, ANY) then p
    else CopyStart(hit, p.end, p.pts, StartFor(stream[hit + 3]))
  }

  lemma FindStartBounds(s: State)
    requires Inv(s) && s.parser.FindStart?
    ensures s.lOut <= s.parser.end + 1 <= |s.stream|
  {
    hide Listed;
  }

  lemma FindStartStep(s: State, hit: int)
    requires s.parser.FindStart? && s.lOut <= s.parser.end + 1 <= |s.stream|
    ensures ParseStep(s, hit) == s.(parser := FindStartNext(s.stream, s.parser, hit))
  {
  }

  lemma FindStartRests(stream: seq<byte>, p: Parser, hit: int, t: seq<byte>)
    requires p.FindStart? && Sensible(p) && Stamped(stream, p) && stream <= t
    ensures var q := FindStartNext(stream, p, hit); Sensible(q) && Stamped(stream, q) && Rest(t, p) == Rest(t, q)
  {
    if FirstMatch(stream, p.end + 1, hit, ANY) {
      FoundLater(stream, t, p.end + 1, hit, ANY);
      MatchInside(stream, hit, ANY);
      StampStable(stream, t, p.end);
      assert stream[hit + 3] == t[hit + 3];
      hide FirstMatch;
      BehindIs(t, p.end, hit);
    }
    hide FirstMatch;
    hide MatchAt;
    hide NoMatch;
    hide From;
    hide Behind;
    hide StampOf;
  }

  lemma BehindIs(t: seq<byte>, end: nat, next: nat)
    requires end + HEADER <= |t| && FirstFrom(t, end + 1, ANY) == Some(next)
    ensures Behind(t, end) == if next + HEADER > |t| then []
                              else From(t, next, end, StampOf(t, end), StartFor(t[next + 3]))
  {
    hide From;
    hide FirstFrom;
    hide StampOf;
  }

  lemma OthersTell(s: State, hit: int, t: seq<byte>)
    requires Inv(s) && Sensible(s.parser) && s.stream <= t
    requires s.parser.Room? || s.parser.CopyHeader? || s.parser.CopyStart?
    ensures Tells(s, ParseStep(s, hit), t)
  {
    hide Inv;
    hide From;
    hide Behind;
    hide StampOf;
  }

  lemma ParseTells(s: State, hit: int, t: seq<byte>)
    requires Inv(s) && Sensible(s.parser) && Stamped(s.stream, s.parser) && s.stream <= t
    ensures Tells(s, ParseStep(s, hit), t)
  {
    hide *;
    match s.parser
    case Seek(_, _) => SeekTells(s, hit, t);
    case SeekStamp(_) => SeekStampTells(s, hit, t);
    case SeekDiscard(_, _, _) => SeekDiscardTells(s, hit, t);
    case FindEnd(_, _, _, _) => FindEndTells(s, hit, t);
    case Trim(_, _, _, _) => TrimTells(s, hit, t);
    case Append(_, _) => AppendTells(s, hit, t);
    case FindStart(_, _) => FindStartTells(s, hit, t);
    case Room(_, _, _, _) => OthersTell(s, hit, t);
    case CopyHeader(_) => OthersTell(s, hit, t);
    case CopyStart(_, _, _, _) => OthersTell(s, hit, t);
  }

  // ------------------------------------------------------------------ every run

  /** In every stream that this one may grow to, what was listed and what is to come is the scan. */
  ghost predicate Told(s: State) {
    && Sensible(s.parser) && Stamped(s.stream, s.parser)
    && forall t :: s.stream <= t ==> s.history + Rest(t, s.parser) == Pictures(t)
  }

  lemma ParseKeepsTold(s: State, hit: int)
    requires Inv(s) && Told(s)
    ensures Told(ParseStep(s, hit))
  {
    hide Inv;
    hide Rest;
    hide Pictures;
    hide Sensible;
    hide Stamped;
    var s' := ParseStep(s, hit);
    ParseKeepsStream(s, hit);
    hide ParseStep;
    ParseTells(s, hit, s.stream);
    forall t | s'.stream <= t ensures s'.history + Rest(t, s'.parser) == Pictures(t) {
      ParseTells(s, hit, t);
    }
  }

  lemma ParseKeepsStream(s: State, hit: int)
    ensures ParseStep(s, hit).stream == s.stream
  {
  }

  lemma NextKeepsTold(s: State, step: Step)
    requires Inv(s) && Told(s)
    ensures Told(Next(s, step))
  {
    match step
    case Parse(hit) => ParseKeepsTold(s, hit);
    case Produce(data) =>
      hide Inv;
      hide Rest;
      hide Pictures;
      GrowKeepsTold(s, data);
    case _ =>
      hide Inv;
      hide Rest;
      hide Pictures;
  }

  lemma GrowKeepsTold(s: State, data: seq<byte>)
    requires Told(s)
    ensures Told(s.(stream := s.stream + data))
  {
    hide Rest;
    hide Pictures;
    if s.parser.FindStart? {
      StampStable(s.stream, s.stream + data, s.parser.end);
    }
    hide StampOf;
    forall t | s.stream + data <= t ensures s.history + Rest(t, s.parser) == Pictures(t) {
      assert s.stream <= t;
    }
  }

  lemma {:induction false} ToldOfRun(steps: seq<Step>)
    ensures Inv(Run(steps)) && Told(Run(steps))
  {
    hide Inv;
    hide Told;
    hide Next;
    InvOfRun(steps);
    if steps == [] {
      InitTold();
    } else {
      var k := |steps| - 1;
      ToldOfRun(steps[..k]);
      NextKeepsTold(Run(steps[..k]), steps[k]);
    }
  }

  lemma InitTold()
    ensures Told(Init())
  {
    hide FirstStart;
    hide From;
    forall t: seq<byte> ensures [] + Rest(t, Seek(0, None)) == Pictures(t) {
      assert [] + Sought(t, 0, None) == Sought(t, 0, None);
    }
  }

  /**
   In every run the pictures listed are the first ones of the scan of the stream; the others are still
   to come from where the parser is.
   */
  lemma EveryRunLists(steps: seq<Step>)
    ensures var s := Run(steps);
            && Sensible(s.parser) && s.history <= Pictures(s.stream)
            && Pictures(s.stream) == s.history + Rest(s.stream, s.parser)
  {
    hide Run;
    hide Rest;
    hide Pictures;
    ToldOfRun(steps);
  }

  // ------------------------------------------------------------------ progress

  /** How far the parser is from listing a picture, in a stream of `n` bytes. */
  ghost function Rank(p: Parser, n: nat): (r: nat) {
    match p
    case Seek(from, _) => if from <= n then 4 * (n - from) + 100 else 0
    case SeekStamp(q) => if q <= n then 4 * (n - q) + 99 else 0
    case SeekDiscard(q, _, _) => if q <= n then 4 * (n - q) + 98 else 0
    case CopyHeader(_) => 20
    case FindStart(_, _) => 19
    case CopyStart(_, _, _, _) => 18
    case Room(_, _, _, _) => 10
    case FindEnd(_, _, _, _) => 9
    case Trim(_, _, _, _) => 8
    case Append(_, _) => 7
  }

  /** A beginning needs a start code. */
  lemma {:induction false} StartNeedsCode(s: seq<byte>, from: nat, pts: Option<nat>)
    requires FirstStart(s, from, pts).Some?
    ensures FirstFrom(s, from, ANY).Some?
    decreases |s| - from
  {
    if !MatchAt(s, from, ANY) {
      NoVideo(s, from);
      StartNeedsCode(s, from + 1, pts);
    }
  }

  /** The step with the next match brings the parser nearer to the next picture. */
  ghost predicate Nearer(s: State, s': State) {
    && s'.stream == s.stream && s'.muxer == s.muxer
    && if s.parser.Append? then s'.history == s.history + [s.parser.elem]
       else s'.history == s.history && s'.list == s.list && Rank(s'.parser, |s.stream|) < Rank(s.parser, |s.stream|)
  }

  lemma SeekAdvances(s: State) returns (hit: int)
    requires Inv(s) && Sensible(s.parser) && s.parser.Seek? && Rest(s.stream, s.parser) != []
    ensures Nearer(s, ParseStep(s, hit))
  {
    var from := s.parser.from;
    SeekBounds(s);
    hide Inv;
    StartNeedsCode(s.stream, from, s.parser.pts);
    FirstFound(s.stream, from, ANY);
    hit := FirstFrom(s.stream, from, ANY).value;
    hide FirstMatch;
    hide FirstStart;
    hide FirstFrom;
    hide Rest;
  }

  lemma SeekOnAdvances(s: State)
    requires Inv(s) && Sensible(s.parser) && (s.parser.SeekStamp? || s.parser.SeekDiscard?)
    requires Rest(s.stream, s.parser) != []
    ensures Nearer(s, ParseStep(s, 0))
  {
    hide Listed;
    hide From;
    if s.parser.SeekStamp? {
      SeekStampBounds(s);
      hide Inv;
      assert s.parser.hit + HEADER <= |s.stream|;
      hide Rest;
      hide StampOf;
    } else {
      DiscardBounds(s);
      hide Inv;
      hide Rest;
    }
  }

  lemma FindEndAdvances(s: State) returns (hit: int)
    requires Inv(s) && Sensible(s.parser) && s.parser.FindEnd? && Rest(s.stream, s.parser) != []
    ensures Nearer(s, ParseStep(s, hit))
  {
    FindEndBounds(s);
    hide Inv;
    FirstFound(s.stream, s.parser.header + 1, VIDEO);
    hit := FirstFrom(s.stream, s.parser.header + 1, VIDEO).value;
    hide FirstMatch;
    hide FirstFrom;
    hide Behind;
  }

  lemma FindStartAdvances(s: State) returns (hit: int)
    requires Inv(s) && Sensible(s.parser) && s.parser.FindStart? && Rest(s.stream, s.parser) != []
    ensures Nearer(s, ParseStep(s, hit))
  {
    FindStartBounds(s);
    hide Inv;
    FirstFound(s.stream, s.parser.end + 1, ANY);
    hit := FirstFrom(s.stream, s.parser.end + 1, ANY).value;
    hide FirstMatch;
    hide FirstFrom;
    hide From;
  }

  lemma TrimAdvances(s: State)
    requires Inv(s) && Sensible(s.parser) && s.parser.Trim?
    ensures Nearer(s, ParseStep(s, 0))
  {
    TrimBounds(s);
    hide Inv;
    hide Trimmed;
  }

  lemma AppendAdvances(s: State)
    requires Inv(s) && s.parser.Append?
    ensures Nearer(s, ParseStep(s, 0))
  {
    ParserFacts(s);
    AppendStep(s, 0);
    hide Inv;
    hide ParseStep;
  }

  lemma RoomAdvances(s: State)
    requires Inv(s) && s.parser.Room? && |s.list| < MAX_COUNT
    ensures Nearer(s, ParseStep(s, 0))
  {
    hide Inv;
  }

  lemma HeaderAdvances(s: State)
    requires Inv(s) && Sensible(s.parser) && Rest(s.stream, s.parser) != []
    requires s.parser.CopyHeader? || s.parser.CopyStart?
    ensures Nearer(s, ParseStep(s, 0))
  {
    ParserFacts(s);
    HeaderThere(s);
    hide Inv;
    hide Rest;
    hide StampOf;
    hide NoMatch;
    hide MatchAt;
    hide EndBy;
  }

  /** The scan reads complete headers only. */
  lemma HeaderThere(s: State)
    requires Sensible(s.parser) && Rest(s.stream, s.parser) != []
    ensures s.parser.CopyHeader? ==> s.parser.end + HEADER <= |s.stream|
    ensures s.parser.CopyStart? ==> s.parser.lstart + HEADER <= |s.stream|
  {
    hide From;
    hide FirstFrom;
    hide Sought;
  }

  lemma ParserAdvances(s: State) returns (hit: int)
    requires Inv(s) && Sensible(s.parser) && Rest(s.stream, s.parser) != [] && |s.list| < MAX_COUNT
    ensures Nearer(s, ParseStep(s, hit))
  {
    hide *;
    hit := 0;
    match s.parser
    case Seek(_, _) => hit := SeekAdvances(s);
    case SeekStamp(_) => SeekOnAdvances(s);
    case SeekDiscard(_, _, _) => SeekOnAdvances(s);
    case FindEnd(_, _, _, _) => hit := FindEndAdvances(s);
    case FindStart(_, _) => hit := FindStartAdvances(s);
    case Trim(_, _, _, _) => TrimAdvances(s);
    case Append(_, _) => AppendAdvances(s);
    case Room(_, _, _, _) => RoomAdvances(s);
    case CopyHeader(_) => HeaderAdvances(s);
    case CopyStart(_, _, _, _) => HeaderAdvances(s);
  }

  ghost predicate AllParse(steps: seq<Step>) {
    forall i :: 0 <= i < |steps| ==> steps[i].Parse?
  }

  /**
   As long as the scan has a picture that is not listed and the list has room, there are matches with
   which the parser alone lists it.
   */
  lemma {:induction false} NextIsListed(steps: seq<Step>) returns (more: seq<Step>)
    requires |Run(steps).history| < |Pictures(Run(steps).stream)| && |Run(steps).list| < MAX_COUNT
    ensures AllParse(more) && Run(steps + more).stream == Run(steps).stream
    ensures Run(steps + more).history == Pictures(Run(steps).stream)[..|Run(steps).history| + 1]
    decreases Rank(Run(steps).parser, |Run(steps).stream|)
  {
    hide *;
    var s := Run(steps);
    ToldOfRun(steps);
    EveryRunLists(steps);
    var hit := ParserAdvances(s);
    RunParse(steps, hit);
    var first := steps + [Parse(hit)];
    EveryRunLists(first);
    NearerFacts(s, Run(first));
    if s.parser.Append? {
      more := [Parse(hit)];
      OneParse(hit);
    } else {
      var rest := NextIsListed(first);
      more := [Parse(hit)] + rest;
      MoreParse(hit, rest);
      assert steps + more == first + rest;
    }
  }

  lemma RunParse(steps: seq<Step>, hit: int)
    ensures Run(steps + [Parse(hit)]) == ParseStep(Run(steps), hit)
  {
    assert (steps + [Parse(hit)])[..|steps|] == steps;
    hide ParseStep;
  }

  lemma NearerFacts(s: State, s': State)
    requires Nearer(s, s')
    ensures s'.stream == s.stream
    ensures if s.parser.Append? then |s'.history| == |s.history| + 1
            else s'.history == s.history && s'.list == s.list
                 && Rank(s'.parser, |s.stream|) < Rank(s.parser, |s.stream|)
  {
    hide Rank;
  }

  lemma OneParse(hit: int)
    ensures AllParse([Parse(hit)])
  {
  }

  lemma MoreParse(hit: int, rest: seq<Step>)
    requires AllParse(rest)
    ensures AllParse([Parse(hit)] + rest)
  {
  }
}

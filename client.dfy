/** `CustomClient` (src/flask_application/client/client.py): a game-API client that reads its
    region from the game's log file instead of taking it as an argument.

    The log file is given as its lines (`readlines()` keeps each line's terminator); `None`
    stands for a file that could not be located or opened, which the source's `except`
    turns into `''`. Decoding bytes to text is an oracle: `None` is a decoding error. */
module Client {
  import opened Wrappers
  import opened PyStr

  newtype byte = b: int | 0 <= b < 256

  type Bytes = seq<byte>

  /** `bytes.decode()`; `None` when the bytes are not valid text. */
  type Decoder = Bytes -> Option<string>

  /** b"regions" */
  const REGIONS: Bytes := [0x72, 0x65, 0x67, 0x69, 0x6f, 0x6e, 0x73]
  /** b"regions/" */
  const REGIONS_SLASH: Bytes := REGIONS + [0x2f]
  /** b"]" */
  const CLOSE: Bytes := [0x5d]

  datatype RegionError = RegionError

  /** What the client passes on to the underlying game-API client. */
  datatype CustomClient = CustomClient(region: string)

  /** The first line at or after `from` that contains `pat`: the `for line in lines: if pat in
      line` scan that returns on its first hit. */
  function FirstLineWith(lines: seq<Bytes>, pat: Bytes, from: nat): (r: Option<nat>)
    ensures r.Some? ==> from <= r.value < |lines| && Contains(lines[r.value], pat)
    ensures r.Some? ==> forall j :: from <= j < r.value ==> !Contains(lines[j], pat)
    ensures r.None? ==> forall j :: from <= j < |lines| ==> !Contains(lines[j], pat)
    decreases |lines| - from
  {
    if from >= |lines| then None
    else if Contains(lines[from], pat) then Some(from)
    else FirstLineWith(lines, pat, from + 1)
  }

  /** `region.decode()` inside the `try`: a decoding error is caught and yields `''`. */
  function DecodeOrEmpty(decode: Decoder, b: Bytes): string
  {
    match decode(b)
    case None => ""
    case Some(text) => text
  }

  /** The body of the `if` for the matching line: the piece after the first `regions/`, cut at
      its first `]`, decoded. Indexing piece 1 of a split without `regions/` raises
      `IndexError`, which is caught and yields `''`. */
  function RegionOfLine(line: Bytes, decode: Decoder): string
  {
    var pieces := Split(line, REGIONS_SLASH);
    if |pieces| < 2 then "" else DecodeOrEmpty(decode, Split(pieces[1], CLOSE)[0])
  }

  /** `get_region`: `Some("")` for the caught exceptions, `None` when the loop finishes without
      a hit (the function falls off its end). */
  function GetRegion(log: Option<seq<Bytes>>, decode: Decoder): (r: Option<string>)
    ensures log.None? ==> r == Some("")
    ensures r.None? <==> log.Some? && forall j :: 0 <= j < |log.value| ==> !Contains(log.value[j], REGIONS)
  {
    match log
    case None => Some("")
    case Some(lines) =>
      match FirstLineWith(lines, REGIONS, 0)
      case None => None
      case Some(k) => Some(RegionOfLine(lines[k], decode))
  }

  /** `e` is where the region text ends in `rest` (what follows the first `regions/`): at the
      first `]`, at the next `regions/`, or at the end of the line, whichever comes first. */
  ghost predicate RegionEnds(rest: Bytes, e: int)
  {
    0 <= e <= |rest|
    && (forall q :: 0 <= q < e ==> rest[q] != CLOSE[0] && !OccursAt(rest, REGIONS_SLASH, q))
    && (e == |rest| || rest[e] == CLOSE[0] || OccursAt(rest, REGIONS_SLASH, e))
  }

  /** Every remainder has exactly one region end. */
  lemma RegionEndsUnique(rest: Bytes)
    ensures exists e :: RegionEnds(rest, e)
    ensures forall e1, e2 :: RegionEnds(rest, e1) && RegionEnds(rest, e2) ==> e1 == e2
  {
    FindFromSpec(rest, CLOSE, 0);
    FindFromSpec(rest, REGIONS_SLASH, 0);
    var a := match Find(rest, CLOSE) case None => |rest| case Some(m) => m;
    var b := match Find(rest, REGIONS_SLASH) case None => |rest| case Some(j) => j;
    var e := if a < b then a else b;
    forall q | 0 <= q < e
      ensures rest[q] != CLOSE[0] && !OccursAt(rest, REGIONS_SLASH, q)
    {
      assert OccursAt(rest, CLOSE, q) <==> rest[q] == CLOSE[0];
    }
    if e < |rest| {
      if e == a {
        assert OccursAt(rest, CLOSE, e);
      }
    }
    assert RegionEnds(rest, e);
  }

  /** The bytes that `line.split(b'regions/')[1].split(b']')[0]` selects, given that `line`
      contains `regions/` first at `i`: from just after it up to the region end. */
  lemma RegionPiece(line: Bytes, i: nat, e: nat)
    requires Find(line, REGIONS_SLASH) == Some(i)
    requires RegionEnds(line[i + |REGIONS_SLASH|..], e)
    ensures |Split(line, REGIONS_SLASH)| >= 2
    ensures Split(Split(line, REGIONS_SLASH)[1], CLOSE)[0] == line[i + |REGIONS_SLASH|..][..e]
  {
    var rest := line[i + |REGIONS_SLASH|..];
    var j := SecondPiece(line, i, rest);
    CloseFirstAt(rest, j, e);
    assert rest[..j][..e] == rest[..e];
  }

  /** Piece 1 of `line.split(b'regions/')` is `rest[..j]`, where `rest` follows the first
      `regions/` and `j` is where the next `regions/` starts in it, or its end. */
  lemma SecondPiece(line: Bytes, i: nat, rest: Bytes) returns (j: nat)
    requires Find(line, REGIONS_SLASH) == Some(i)
    requires i + |REGIONS_SLASH| <= |line| && rest == line[i + |REGIONS_SLASH|..]
    ensures |Split(line, REGIONS_SLASH)| >= 2
    ensures j <= |rest| && Split(line, REGIONS_SLASH)[1] == rest[..j]
    ensures forall q :: 0 <= q < j ==> !OccursAt(rest, REGIONS_SLASH, q)
    ensures j == |rest| || OccursAt(rest, REGIONS_SLASH, j)
  {
    var start := i + |REGIONS_SLASH|;
    SplitSecond(line, REGIONS_SLASH, i);
    FindFromSpec(line, REGIONS_SLASH, start);
    var abs := match FindFrom(line, REGIONS_SLASH, start) case None => |line| case Some(x) => x;
    SplitFromHeadAt(line, REGIONS_SLASH, start, abs);
    j := abs - start;
    forall q | 0 <= q < j
      ensures !OccursAt(rest, REGIONS_SLASH, q)
    {
      OccursInSuffix(line, start, REGIONS_SLASH, q);
    }
    OccursInSuffix(line, start, REGIONS_SLASH, j);
    assert line[start..abs] == rest[..j];
  }

  /** Cutting `rest[..j]` at its first `]` stops at the region end `e`. */
  lemma CloseFirstAt(rest: Bytes, j: nat, e: nat)
    requires e <= j <= |rest|
    requires RegionEnds(rest, e)
    requires forall q :: 0 <= q < j ==> !OccursAt(rest, REGIONS_SLASH, q)
    ensures Split(rest[..j], CLOSE)[0] == rest[..j][..e]
  {
    var seg := rest[..j];
    forall q | 0 <= q < e
      ensures !OccursAt(seg, CLOSE, q)
    {
      assert OccursAt(seg, CLOSE, q) <==> seg[q] == CLOSE[0];
    }
    if e < j {
      assert rest[e] == CLOSE[0];
      assert OccursAt(seg, CLOSE, e);
    }
    SplitHeadAt(seg, CLOSE, e);
  }

  /** What `get_region` returns when the first line mentioning `regions` does contain
      `regions/`: the decoded text from just after the first `regions/` up to the region end. */
  lemma GetRegionReadsFirstMatchingLine(lines: seq<Bytes>, decode: Decoder, k: nat, i: nat, e: nat)
    requires FirstLineWith(lines, REGIONS, 0) == Some(k)
    requires Find(lines[k], REGIONS_SLASH) == Some(i)
    requires RegionEnds(lines[k][i + |REGIONS_SLASH|..], e)
    ensures GetRegion(Some(lines), decode) == Some(DecodeOrEmpty(decode, lines[k][i + |REGIONS_SLASH|..][..e]))
  {
    RegionPiece(lines[k], i, e);
  }

  /** With no `]` and no second `regions/` after the first `regions/`, the whole remainder of
      the line, terminator included, is decoded. */
  lemma NoCloseTakesRemainder(lines: seq<Bytes>, decode: Decoder, k: nat, i: nat)
    requires FirstLineWith(lines, REGIONS, 0) == Some(k)
    requires Find(lines[k], REGIONS_SLASH) == Some(i)
    requires forall q :: i + |REGIONS_SLASH| <= q < |lines[k]| ==> lines[k][q] != CLOSE[0] && !OccursAt(lines[k], REGIONS_SLASH, q)
    ensures GetRegion(Some(lines), decode) == Some(DecodeOrEmpty(decode, lines[k][i + |REGIONS_SLASH|..]))
  {
    var line := lines[k];
    var start := i + |REGIONS_SLASH|;
    var rest := line[start..];
    forall q | 0 <= q < |rest|
      ensures rest[q] != CLOSE[0] && !OccursAt(rest, REGIONS_SLASH, q)
    {
      OccursInSuffix(line, start, REGIONS_SLASH, q);
    }
    assert RegionEnds(rest, |rest|);
    GetRegionReadsFirstMatchingLine(lines, decode, k, i, |rest|);
    assert rest[..|rest|] == rest;
  }

  /** Only the first line that mentions `regions` is looked at: if it lacks `regions/` the
      result is `''`, and any later lines, even ones holding a region, make no difference. */
  lemma {:induction false} LaterLinesIgnored(lines: seq<Bytes>, later: seq<Bytes>, decode: Decoder, k: nat)
    requires FirstLineWith(lines, REGIONS, 0) == Some(k)
    ensures GetRegion(Some(lines + later), decode) == GetRegion(Some(lines), decode)
    ensures !Contains(lines[k], REGIONS_SLASH) ==> GetRegion(Some(lines + later), decode) == Some("")
  {
    FirstLineWithPrefix(lines, later, k, 0);
  }

  lemma {:induction false} FirstLineWithPrefix(lines: seq<Bytes>, later: seq<Bytes>, k: nat, from: nat)
    requires FirstLineWith(lines, REGIONS, from) == Some(k)
    ensures FirstLineWith(lines + later, REGIONS, from) == Some(k)
    decreases |lines| - from
  {
    assert (lines + later)[from] == lines[from];
    if from < k {
      FirstLineWithPrefix(lines, later, k, from + 1);
    }
  }

  /** The region the constructor settles on: the file's region when truthy, else the argument
      when truthy, else `RegionError`. */
  function ChooseRegion(fileRegion: Option<string>, region: Option<string>): Result<string, RegionError>
  {
    if Truthy(fileRegion) then Success(fileRegion.value)
    else if Truthy(region) then Success(region.value)
    else Failure(RegionError)
  }

  /** `CustomClient(region)`: built on the file's region when `get_region` yields one, on the
      argument otherwise, and refused with `RegionError` when neither is usable. */
  function NewCustomClient(log: Option<seq<Bytes>>, decode: Decoder, region: Option<string>): (r: Result<CustomClient, RegionError>)
    ensures r.Success? ==> r.value.region != ""
    ensures r.Success? ==> Some(r.value.region) in {GetRegion(log, decode), region}
    ensures Truthy(GetRegion(log, decode)) ==> r == Success(CustomClient(GetRegion(log, decode).value))
    ensures r.Failure? <==> !Truthy(GetRegion(log, decode)) && !Truthy(region)
  {
    match ChooseRegion(GetRegion(log, decode), region)
    case Success(chosen) => Success(CustomClient(chosen))
    case Failure(err) => Failure(err)
  }

  /** The argument matters only when the log yields no usable region. */
  lemma ArgumentUsedOnlyAsFallback(log: Option<seq<Bytes>>, decode: Decoder, a: Option<string>, b: Option<string>)
    ensures Truthy(GetRegion(log, decode)) ==> NewCustomClient(log, decode, a) == NewCustomClient(log, decode, b)
    ensures !Truthy(GetRegion(log, decode)) && Truthy(a) ==> NewCustomClient(log, decode, a) == Success(CustomClient(a.value))
  {
  }
}

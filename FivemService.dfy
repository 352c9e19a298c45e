/**
 * The sync of src/services/fivem.service.ts: the master list is read frame
 * by frame, the FiveM servers become views, the German ones become rows of
 * the server table, and the rows are written in batches together with one
 * history sample each. A second job deletes old samples and the servers
 * that have gone quiet.
 *
 * The stream, the protobuf decoding and the clock are not part of this
 * model: the decoded frames and the clock readings are parameters.
 */
module FivemService {
  import opened Wrappers
  import opened Strings
  import opened Seqs
  import opened Transformers
  import opened ServerStore

  datatype GameName = FiveM | RedM | LibertyM | Launcher

  /** The string value of each member of the `GameName` enum. */
  function GameNameValue(g: GameName): (s: string)
    ensures s != ""
  {
    match g
    case FiveM => "gta5"
    case RedM => "rdr3"
    case LibertyM => "ny"
    case Launcher => "launcher"
  }

  /** The enum values are distinct. */
  lemma GameNameValueInjective(a: GameName, b: GameName)
    ensures GameNameValue(a) == GameNameValue(b) <==> a == b
  {
  }

  /** One decoded frame of the master list: `EndPoint` and `Data` may be
      missing. */
  datatype Frame = Frame(endPoint: Option<string>, data: Option<MasterServerData>)

  /** `srv.Data?.vars?.gamename`: the game name the frame announces, if any. */
  function AnnouncedGameName(f: Frame): Option<string> {
    if f.data.Some? && f.data.value.vars.Some? then Get(f.data.value.vars.value, "gamename") else None
  }

  /** `srv.Data?.vars?.gamename || GameName.FiveM`: the announced name when it
      is not empty, `gta5` otherwise. */
  function ServerGameName(f: Frame): (name: string)
    ensures name != ""
    ensures f.data.None? || f.data.value.vars.None? ==> name == GameNameValue(FiveM)
    ensures AnnouncedGameName(f).Some? && AnnouncedGameName(f).value != "" ==>
      name == AnnouncedGameName(f).value
    ensures AnnouncedGameName(f).None? || AnnouncedGameName(f).value == "" ==>
      name == GameNameValue(FiveM)
  {
    var announced := AnnouncedGameName(f);
    if announced.Some? && announced.value != "" then announced.value else GameNameValue(FiveM)
  }

  /** The frame is turned into a view and handed on: it has a non-empty end
      point and data, and it belongs to the game asked for. */
  predicate Accepts(game: GameName, f: Frame) {
    f.endPoint.Some? && f.endPoint.value != "" && f.data.Some? && ServerGameName(f) == GameNameValue(game)
  }

  /** A server that announces no game name counts as a FiveM server. */
  lemma AcceptsUnnamedAsFiveM(game: GameName, endPoint: string, data: MasterServerData)
    requires endPoint != ""
    requires data.vars.None? || Get(data.vars.value, "gamename").None? || Get(data.vars.value, "gamename") == Some("")
    ensures Accepts(game, Frame(Some(endPoint), Some(data))) <==> game == FiveM
  {
    GameNameValueInjective(game, FiveM);
  }

  /** `masterListServerData2ServerView(srv.EndPoint, srv.Data)`. */
  function FrameView(u: ServerUtils, f: Frame): ServerView
    requires f.endPoint.Some? && f.data.Some?
  {
    MasterListView(u, f.endPoint.value, f.data.value)
  }

  function AcceptsGame(game: GameName): Frame -> bool {
    (f: Frame) => Accepts(game, f)
  }

  /** The frames of the stream that `readBodyToServers` hands on, in order. */
  function Accepted(game: GameName, frames: seq<Frame>): (kept: seq<Frame>)
    ensures forall k :: 0 <= k < |kept| ==> Accepts(game, kept[k])
  {
    Filter(frames, AcceptsGame(game))
  }

  /** The views of frames that all have an end point and data. */
  function Views(u: ServerUtils, frames: seq<Frame>): (views: seq<ServerView>)
    requires forall k :: 0 <= k < |frames| ==> frames[k].endPoint.Some? && frames[k].data.Some?
    ensures |views| == |frames|
    decreases |frames|
  {
    if frames == [] then []
    else Views(u, frames[..|frames| - 1]) + [FrameView(u, frames[|frames| - 1])]
  }

  /** View `k` is the view of frame `k`. */
  lemma {:induction false} ViewsAt(u: ServerUtils, frames: seq<Frame>, k: nat)
    requires forall k :: 0 <= k < |frames| ==> frames[k].endPoint.Some? && frames[k].data.Some?
    requires k < |frames|
    ensures Views(u, frames)[k] == FrameView(u, frames[k])
    decreases |frames|
  {
    if k < |frames| - 1 {
      ViewsAt(u, frames[..|frames| - 1], k);
    }
  }

  /** The views that `readBodyToServers` hands on, in the order of the
      stream: the view of every accepted frame. */
  function AcceptedViews(u: ServerUtils, game: GameName, frames: seq<Frame>): seq<ServerView>
    decreases |frames|
  {
    if frames == [] then []
    else
      var f := frames[|frames| - 1];
      AcceptedViews(u, game, frames[..|frames| - 1]) + if Accepts(game, f) then [FrameView(u, f)] else []
  }

  /** The views of frames one of which is appended. */
  lemma ViewsSnoc(u: ServerUtils, frames: seq<Frame>, f: Frame)
    requires forall k :: 0 <= k < |frames| ==> frames[k].endPoint.Some? && frames[k].data.Some?
    requires f.endPoint.Some? && f.data.Some?
    ensures Views(u, frames + [f]) == Views(u, frames) + [FrameView(u, f)]
  {
    SnocInit(frames, f);
  }

  /** Reading the stream frame by frame is filtering the frames and then
      taking the view of each. */
  lemma {:induction false} AcceptedViewsAreViews(u: ServerUtils, game: GameName, frames: seq<Frame>)
    ensures AcceptedViews(u, game, frames) == Views(u, Accepted(game, frames))
    decreases |frames|
  {
    if frames != [] {
      var init := frames[..|frames| - 1];
      var f := frames[|frames| - 1];
      AcceptedViewsAreViews(u, game, init);
      InitLast(frames);
      FilterSnoc(init, f, AcceptsGame(game));
      if Accepts(game, f) {
        ViewsSnoc(u, Accepted(game, init), f);
      }
    }
  }

  /** `readBodyToServers(gameName, onServer, body)`: the views passed to
      `onServer`, one per frame, in the order of the stream. A frame without
      an end point or data, or of another game, is skipped. */
  method ReadBodyToServers(u: ServerUtils, game: GameName, frames: seq<Frame>) returns (views: seq<ServerView>)
    ensures views == AcceptedViews(u, game, frames)
  {
    views := [];
    for i := 0 to |frames|
      invariant views == AcceptedViews(u, game, frames[..i])
    {
      var f := frames[i];
      assert frames[..i + 1][..i] == frames[..i];
      if f.endPoint.Some? && f.endPoint.value != "" && f.data.Some? {
        var serverGameName := ServerGameName(f);
        if serverGameName == GameNameValue(game) {
          views := views + [FrameView(u, f)];
        }
      }
    }
    assert frames[..|frames|] == frames;
  }

  /** A frame is handed on exactly when it is in the stream, has a
      non-empty end point and data, and announces the game. */
  lemma ReadBodyAccepts(u: ServerUtils, game: GameName, frames: seq<Frame>, f: Frame)
    ensures f in Accepted(game, frames) <==>
            f in frames && f.endPoint.Some? && f.endPoint.value != "" && f.data.Some? && ServerGameName(f) == GameNameValue(game)
  {
    FilterMembership(frames, AcceptsGame(game), f);
  }

  /** The characters `sanitizeString` keeps: printable ASCII, `\x20` to `\x7E`. */
  predicate IsPrintable(c: char) { ' ' <= c <= '~' }

  /** The longest string a text column takes. */
  const MaxColumnLength := 255

  /** Every text column of the row holds a sanitized string: at most 255
      printable characters, not starting with a space. */
  predicate Fits(s: string) {
    |s| <= MaxColumnLength && (forall i :: 0 <= i < |s| ==> IsPrintable(s[i])) && (s == [] || s[0] != ' ')
  }

  lemma ContainedPrintable(s: string, t: string)
    requires forall i :: 0 <= i < |s| ==> IsPrintable(s[i])
    requires Contains(s, t)
    ensures forall i :: 0 <= i < |t| ==> IsPrintable(t[i])
  {
    var start :| 0 <= start <= |s| - |t| && ContainsAt(s, t, start);
    assert forall i :: 0 <= i < |t| ==> t[i] == s[start + i];
  }

  /** The text left once every non-printable character is removed and the
      white space at both ends is trimmed. */
  function Cleaned(input: string): (t: string)
    ensures forall i :: 0 <= i < |t| ==> IsPrintable(t[i])
    ensures t == [] || (t[0] != ' ' && t[|t| - 1] != ' ')
  {
    var printable := Filter(input, IsPrintable);
    var t := Trim(printable);
    ContainedPrintable(printable, t);
    t
  }

  /** `sanitizeString(input)`: the cleaned text, cut to 255 characters. */
  function Sanitize(input: string): (r: string)
    ensures Fits(r)
    ensures r == [] || r[0] != ' '
    ensures |r| <= |Cleaned(input)| && r == Cleaned(input)[..|r|]
    ensures |Cleaned(input)| <= MaxColumnLength ==> r == Cleaned(input)
    ensures |Cleaned(input)| > MaxColumnLength ==> |r| == MaxColumnLength
  {
    var t := Cleaned(input);
    if |t| > MaxColumnLength then t[..MaxColumnLength] else t
  }

  /** Text that is already printable, has nothing to trim and is short
      enough comes out of `sanitizeString` unchanged. */
  lemma {:induction false} SanitizeClean(s: string)
    requires forall i :: 0 <= i < |s| ==> IsPrintable(s[i])
    requires s == [] || (s[0] != ' ' && s[|s| - 1] != ' ')
    requires |s| <= MaxColumnLength
    ensures Sanitize(s) == s
  {
    FilterAll(s, IsPrintable);
    TrimUnchanged(s);
  }

  /** A text of at most 255 characters that ends in a space is never what
      `sanitizeString` makes of it. */
  lemma SanitizeMovesTrailingSpace(r: string)
    requires r != [] && r[|r| - 1] == ' ' && |r| <= MaxColumnLength
    ensures Sanitize(r) != r
  {
    assert |Cleaned(r)| <= |Filter(r, IsPrintable)| <= |r|;
  }

  /** Cutting after trimming can leave a space at the end, so sanitizing is
      not idempotent: 254 letters, a space and one more letter. */
  lemma SanitizeNotIdempotent()
    ensures var s := seq(254, _ => 'a') + " b"; Sanitize(Sanitize(s)) != Sanitize(s)
  {
    var s := seq(254, _ => 'a') + " b";
    assert forall i :: 0 <= i < |s| ==> IsPrintable(s[i]);
    assert s[0] == 'a' && s[|s| - 1] == 'b';
    FilterAll(s, IsPrintable);
    TrimUnchanged(s);
    var r := Sanitize(s);
    assert r == s[..255] && r[254] == ' ';
    SanitizeMovesTrailingSpace(r);
  }

  predicate RowFits(row: ServerRow) {
    Fits(row.id) && Fits(row.locale) && Fits(row.localeCountry) && Fits(row.hostname)
    && Fits(row.joinId) && Fits(row.projectName) && Fits(row.projectDescription)
    && Fits(row.mapname) && Fits(row.gametype) && Fits(row.gamename)
    && Fits(row.enforceGameBuild) && Fits(row.bannerConnecting) && Fits(row.bannerDetail)
    && Fits(row.server)
  }

  /** The `ServerData` record the sync builds from a view: every number and
      flag defaults to `0` or `false` when the view lacks it, and every text
      is sanitized, a missing one being `''`. */
  function ToServerData(v: ServerView): (row: ServerRow)
    ensures RowFits(row)
    ensures row.playersCurrent == (if v.playersCurrent.Some? then v.playersCurrent.value else 0)
    ensures row.upvotePower == (if v.upvotePower.Some? then v.upvotePower.value else 0)
    ensures row.isPrivate <==> v.private.Some? && v.private.value
    ensures row.scriptHookAllowed <==> v.scriptHookAllowed.Some? && v.scriptHookAllowed.value
    ensures row.id == Sanitize(v.id) && row.locale == Sanitize(v.locale)
  {
    ServerRow(
      upvotePower := OrZero(v.upvotePower),
      burstPower := OrZero(v.burstPower),
      isPrivate := v.private.GetOr(false),
      scriptHookAllowed := v.scriptHookAllowed.GetOr(false),
      playersMax := OrZero(v.playersMax),
      playersCurrent := OrZero(v.playersCurrent),
      iconVersion := OrZero(v.iconVersion),
      id := Sanitize(v.id),
      locale := Sanitize(v.locale),
      localeCountry := Sanitize(v.localeCountry),
      hostname := Sanitize(v.hostname),
      joinId := Sanitize(v.joinId.GetOr("")),
      projectName := Sanitize(v.projectName),
      projectDescription := Sanitize(v.projectDescription.GetOr("")),
      mapname := Sanitize(v.mapname.GetOr("")),
      gametype := Sanitize(v.gametype.GetOr("")),
      gamename := Sanitize(v.gamename.GetOr("")),
      enforceGameBuild := Sanitize(v.enforceGameBuild.GetOr("")),
      bannerConnecting := Sanitize(v.bannerConnecting.GetOr("")),
      bannerDetail := Sanitize(v.bannerDetail.GetOr("")),
      server := Sanitize(v.server.GetOr("")))
  }

  /** Every text column is the sanitized text of its field, a missing
      optional field being sanitized as the empty string. */
  lemma ToServerDataTexts(v: ServerView)
    ensures var row := ToServerData(v);
            && row.localeCountry == Sanitize(v.localeCountry)
            && row.hostname == Sanitize(v.hostname)
            && row.projectName == Sanitize(v.projectName)
            && row.joinId == Sanitize(v.joinId.GetOr(""))
            && row.projectDescription == Sanitize(v.projectDescription.GetOr(""))
            && row.mapname == Sanitize(v.mapname.GetOr(""))
            && row.gametype == Sanitize(v.gametype.GetOr(""))
            && row.gamename == Sanitize(v.gamename.GetOr(""))
            && row.enforceGameBuild == Sanitize(v.enforceGameBuild.GetOr(""))
            && row.bannerConnecting == Sanitize(v.bannerConnecting.GetOr(""))
            && row.bannerDetail == Sanitize(v.bannerDetail.GetOr(""))
            && row.server == Sanitize(v.server.GetOr(""))
  {
  }

  /** A count the listing leaves out is stored as 0; one it gives is stored
      as given. */
  lemma ToServerDataCounts(v: ServerView)
    ensures var row := ToServerData(v);
            && (v.burstPower.None? ==> row.burstPower == 0)
            && (v.burstPower.Some? ==> row.burstPower == v.burstPower.value)
            && (v.playersMax.None? ==> row.playersMax == 0)
            && (v.playersMax.Some? ==> row.playersMax == v.playersMax.value)
            && (v.iconVersion.None? ==> row.iconVersion == 0)
            && (v.iconVersion.Some? ==> row.iconVersion == v.iconVersion.value)
  {
  }

  /** The sync keeps only the servers in this locale. */
  const GermanLocale := "de-DE"

  predicate IsGerman(v: ServerView) { v.locale == GermanLocale }

  function Rows(views: seq<ServerView>): (rows: seq<ServerRow>)
    ensures |rows| == |views|
    decreases |views|
  {
    if views == [] then []
    else Rows(views[..|views| - 1]) + [ToServerData(views[|views| - 1])]
  }

  /** Row `k` is the record of view `k`. */
  lemma {:induction false} RowsAt(views: seq<ServerView>, k: nat)
    requires k < |views|
    ensures Rows(views)[k] == ToServerData(views[k])
    decreases |views|
  {
    if k < |views| - 1 {
      RowsAt(views[..|views| - 1], k);
    }
  }

  /** One more view seen: its record is pushed when it is German. */
  lemma RowsStep(views: seq<ServerView>, i: nat)
    requires i < |views|
    ensures Rows(Filter(views[..i + 1], IsGerman))
            == if IsGerman(views[i]) then Rows(Filter(views[..i], IsGerman)) + [ToServerData(views[i])]
               else Rows(Filter(views[..i], IsGerman))
  {
    var v := views[i];
    assert views[..i + 1] == views[..i] + [v];
    var kept := Filter(views[..i], IsGerman);
    FilterSnoc(views[..i], v, IsGerman);
    if IsGerman(v) {
      assert (kept + [v])[..|kept|] == kept;
    }
  }

  /** The `onServer` callback of `getServers`, called once per view: a view
      whose locale is not `de-DE` is skipped, the others are pushed as rows. */
  method CollectServers(views: seq<ServerView>) returns (servers: seq<ServerRow>)
    ensures servers == Rows(Filter(views, IsGerman))
  {
    servers := [];
    for i := 0 to |views|
      invariant servers == Rows(Filter(views[..i], IsGerman))
    {
      var server := views[i];
      RowsStep(views, i);
      if server.locale == GermanLocale {
        servers := servers + [ToServerData(server)];
      }
    }
    assert views[..|views|] == views;
  }

  /** Every row the sync writes is in locale `de-DE`: sanitizing leaves that
      locale as it is. */
  lemma CollectedAreGerman(views: seq<ServerView>)
    ensures forall k :: 0 <= k < |Rows(Filter(views, IsGerman))| ==> Rows(Filter(views, IsGerman))[k].locale == GermanLocale
  {
    SanitizeClean(GermanLocale);
    var kept := Filter(views, IsGerman);
    forall k | 0 <= k < |Rows(kept)| ensures Rows(kept)[k].locale == GermanLocale {
      RowsAt(kept, k);
    }
  }

  function Ids(rows: seq<ServerRow>): (ids: seq<string>)
    ensures |ids| == |rows| && forall k :: 0 <= k < |rows| ==> ids[k] == rows[k].id
  {
    seq(|rows|, k requires 0 <= k < |rows| => rows[k].id)
  }

  /** `existingIds`: the ids of the fetched rows that the server table holds. */
  function ExistingIds(servers: map<string, ServerRow>, rows: seq<ServerRow>): (ids: set<string>)
    ensures forall id :: id in ids <==> id in servers && exists k :: 0 <= k < |rows| && rows[k].id == id
  {
    set id | id in servers && id in Ids(rows)
  }

  predicate Known(existing: set<string>, row: ServerRow) { row.id in existing }

  function InTable(existing: set<string>): ServerRow -> bool {
    (row: ServerRow) => Known(existing, row)
  }

  function NotInTable(existing: set<string>): ServerRow -> bool {
    (row: ServerRow) => !Known(existing, row)
  }

  /** `toUpdate`: the rows whose id exists, in order. */
  function ToUpdate(rows: seq<ServerRow>, existing: set<string>): seq<ServerRow> {
    Filter(rows, InTable(existing))
  }

  /** `toCreate`: the rows whose id does not exist, in order. */
  function ToCreate(rows: seq<ServerRow>, existing: set<string>): seq<ServerRow> {
    Filter(rows, NotInTable(existing))
  }

  /** Every row lands in exactly one of the two lists, and together they are
      a permutation of the rows. */
  lemma PartitionRows(rows: seq<ServerRow>, existing: set<string>, row: ServerRow)
    ensures row in ToUpdate(rows, existing) <==> row in rows && row.id in existing
    ensures row in ToCreate(rows, existing) <==> row in rows && row.id !in existing
    ensures multiset(ToCreate(rows, existing) + ToUpdate(rows, existing)) == multiset(rows)
    ensures |ToCreate(rows, existing)| + |ToUpdate(rows, existing)| == |rows|
  {
    FilterMembership(rows, InTable(existing), row);
    FilterMembership(rows, NotInTable(existing), row);
    FilterPartition(rows, InTable(existing), NotInTable(existing));
  }

  /** Each list keeps the rows in their input order: it is the subsequence of
      `rows` at the positions whose id is (or is not) in the table. */
  lemma PartitionOrder(rows: seq<ServerRow>, existing: set<string>)
    ensures Embeds(ToUpdate(rows, existing), rows, KeptIndices(rows, InTable(existing)))
    ensures Embeds(ToCreate(rows, existing), rows, KeptIndices(rows, NotInTable(existing)))
    ensures forall i :: 0 <= i < |rows| ==>
      (i in KeptIndices(rows, InTable(existing)) <==> rows[i].id in existing)
    ensures forall i :: 0 <= i < |rows| ==>
      (i in KeptIndices(rows, NotInTable(existing)) <==> rows[i].id !in existing)
  {
    FilterEmbeds(rows, InTable(existing));
    FilterEmbeds(rows, NotInTable(existing));
    forall i | 0 <= i < |rows|
      ensures i in KeptIndices(rows, InTable(existing)) <==> rows[i].id in existing
      ensures i in KeptIndices(rows, NotInTable(existing)) <==> rows[i].id !in existing
    {
      if rows[i].id in existing {
        KeptFromComplete(rows, InTable(existing), 0, i);
      } else {
        KeptFromComplete(rows, NotInTable(existing), 0, i);
      }
    }
  }

  /** Filtering keeps ids distinct. */
  lemma {:induction false} FilterDistinctIds(rows: seq<ServerRow>, p: ServerRow -> bool)
    requires DistinctIds(rows)
    ensures DistinctIds(Filter(rows, p))
    decreases |rows|
  {
    if rows != [] {
      var rest := rows[1..];
      assert DistinctIds(rest) by {
        assert forall k :: 0 <= k < |rest| ==> rest[k] == rows[k + 1];
      }
      FilterDistinctIds(rest, p);
      if p(rows[0]) {
        forall x | x in Filter(rest, p) ensures x.id != rows[0].id {
          FilterMembership(rest, p, x);
          var j :| 0 <= j < |rest| && rest[j] == x;
          assert rows[j + 1] == x;
        }
      }
    }
  }

  /** The rows a batch holds: `prisma.server.createMany` and the history
      `createMany` take at most this many rows a call, and the rows to update
      are sent in batches of this size, one `update` a row. */
  const BatchSize := 5000

  function CreateOps(batches: seq<seq<ServerRow>>): (ops: seq<Op>)
    ensures |ops| == |batches|
    ensures forall k :: 0 <= k < |ops| ==> ops[k] == CreateMany(batches[k])
    decreases |batches|
  {
    if batches == [] then []
    else CreateOps(batches[..|batches| - 1]) + [CreateMany(batches[|batches| - 1])]
  }

  function UpdateOps(rows: seq<ServerRow>): (ops: seq<Op>)
    ensures |ops| == |rows|
    ensures forall k :: 0 <= k < |ops| ==> ops[k] == Update(rows[k])
    decreases |rows|
  {
    if rows == [] then []
    else UpdateOps(rows[..|rows| - 1]) + [Update(rows[|rows| - 1])]
  }

  /** One sample per row: its id, its players and the sync's timestamp. */
  function SamplesOf(batch: seq<ServerRow>, timestamp: int): (samples: seq<HistoryRow>)
    ensures |samples| == |batch|
  {
    seq(|batch|, k requires 0 <= k < |batch| => HistoryRow(batch[k].id, batch[k].playersCurrent, timestamp))
  }

  function HistoryOps(batches: seq<seq<ServerRow>>, timestamp: int): (ops: seq<Op>)
    ensures |ops| == |batches|
    ensures forall k :: 0 <= k < |ops| ==> ops[k] == CreateHistory(SamplesOf(batches[k], timestamp))
    decreases |batches|
  {
    if batches == [] then []
    else HistoryOps(batches[..|batches| - 1], timestamp) + [CreateHistory(SamplesOf(batches[|batches| - 1], timestamp))]
  }

  lemma CreateOpsSnoc(batches: seq<seq<ServerRow>>, batch: seq<ServerRow>)
    ensures CreateOps(batches + [batch]) == CreateOps(batches) + [CreateMany(batch)]
  {
    SnocInit(batches, batch);
  }

  lemma HistoryOpsSnoc(batches: seq<seq<ServerRow>>, batch: seq<ServerRow>, timestamp: int)
    ensures HistoryOps(batches + [batch], timestamp) == HistoryOps(batches, timestamp) + [CreateHistory(SamplesOf(batch, timestamp))]
  {
    SnocInit(batches, batch);
  }

  lemma {:induction false} UpdateOpsAppend(a: seq<ServerRow>, b: seq<ServerRow>)
    ensures UpdateOps(a + b) == UpdateOps(a) + UpdateOps(b)
    decreases |b|
  {
    if b == [] {
      assert a + b == a;
    } else {
      var init := b[..|b| - 1];
      AppendInit(a, b);
      UpdateOpsAppend(a, init);
    }
  }

  /** Taking the first batch off the rows not yet batched: the batch is
      `rows.slice(i, i + 5000)` and the next loop index is `i + 5000`. */
  lemma NextChunk(done: seq<seq<ServerRow>>, s: seq<ServerRow>, i: nat)
    requires i < |s|
    requires done + Chunks(s[i..], BatchSize) == Chunks(s, BatchSize)
    ensures (done + [s[i..Min(i + BatchSize, |s|)]]) + Chunks(s[Min(i + BatchSize, |s|)..], BatchSize) == Chunks(s, BatchSize)
    ensures s[..Min(i + BatchSize, |s|)] == s[..i] + s[i..Min(i + BatchSize, |s|)]
  {
    var j := Min(i + BatchSize, |s|);
    ChunkAt(s, i, BatchSize);
    AppendAssoc(done, [s[i..j]], Chunks(s[j..], BatchSize));
    assert s[..j] == s[..i] + s[i..j];
  }

  lemma {:induction false} HistoryOpsAppend(a: seq<seq<ServerRow>>, b: seq<seq<ServerRow>>, timestamp: int)
    ensures HistoryOps(a + b, timestamp) == HistoryOps(a, timestamp) + HistoryOps(b, timestamp)
    decreases |b|
  {
    if b == [] {
      assert a + b == a;
    } else {
      AppendInit(a, b);
      HistoryOpsAppend(a, b[..|b| - 1], timestamp);
    }
  }

  /** One pass of the first batching loop: the next batch, its create call
      and its history call. */
  lemma CreateStep(created: seq<seq<ServerRow>>, s: seq<ServerRow>, i: nat, timestamp: int)
    requires i < |s|
    requires created + Chunks(s[i..], BatchSize) == Chunks(s, BatchSize)
    ensures var j := Min(i + BatchSize, |s|);
            && (created + [s[i..j]]) + Chunks(s[j..], BatchSize) == Chunks(s, BatchSize)
            && CreateOps(created + [s[i..j]]) == CreateOps(created) + [CreateMany(s[i..j])]
            && HistoryOps(created + [s[i..j]], timestamp) == HistoryOps(created, timestamp) + [CreateHistory(SamplesOf(s[i..j], timestamp))]
  {
    var j := Min(i + BatchSize, |s|);
    NextChunk(created, s, i);
    CreateOpsSnoc(created, s[i..j]);
    HistoryOpsSnoc(created, s[i..j], timestamp);
  }

  /** One pass of the second batching loop: the next batch, its updates
      and its history call. */
  lemma UpdateStep(updated: seq<seq<ServerRow>>, s: seq<ServerRow>, i: nat, timestamp: int)
    requires i < |s|
    requires updated + Chunks(s[i..], BatchSize) == Chunks(s, BatchSize)
    ensures var j := Min(i + BatchSize, |s|);
            && (updated + [s[i..j]]) + Chunks(s[j..], BatchSize) == Chunks(s, BatchSize)
            && UpdateOps(s[..j]) == UpdateOps(s[..i]) + UpdateOps(s[i..j])
            && HistoryOps(updated + [s[i..j]], timestamp) == HistoryOps(updated, timestamp) + [CreateHistory(SamplesOf(s[i..j], timestamp))]
  {
    var j := Min(i + BatchSize, |s|);
    NextChunk(updated, s, i);
    UpdateOpsAppend(s[..i], s[i..j]);
    HistoryOpsSnoc(updated, s[i..j], timestamp);
  }

  /** The first loop of `getServers`: one create call and one history call
      per batch of 5000 new rows. */
  method BatchCreates(toCreate: seq<ServerRow>, timestamp: int) returns (createBatches: seq<Op>, historyBatches: seq<Op>)
    ensures createBatches == CreateOps(Chunks(toCreate, BatchSize))
    ensures historyBatches == HistoryOps(Chunks(toCreate, BatchSize), timestamp)
  {
    createBatches, historyBatches := [], [];
    ghost var created: seq<seq<ServerRow>> := [];
    var i := 0;
    while i < |toCreate|
      invariant 0 <= i
      invariant created + Chunks(toCreate[Min(i, |toCreate|)..], BatchSize) == Chunks(toCreate, BatchSize)
      invariant createBatches == CreateOps(created)
      invariant historyBatches == HistoryOps(created, timestamp)
    {
      var batch := toCreate[i..Min(i + BatchSize, |toCreate|)];
      CreateStep(created, toCreate, i, timestamp);
      createBatches := createBatches + [CreateMany(batch)];
      historyBatches := historyBatches + [CreateHistory(SamplesOf(batch, timestamp))];
      created := created + [batch];
      i := i + BatchSize;
    }
    assert Chunks(toCreate[Min(i, |toCreate|)..], BatchSize) == [];
    assert created + [] == created;
  }

  /** The second loop of `getServers`: one update call per known row and
      one history call per batch of 5000 of them. */
  method BatchUpdates(toUpdate: seq<ServerRow>, timestamp: int) returns (updateBatches: seq<Op>, historyBatches: seq<Op>)
    ensures updateBatches == UpdateOps(toUpdate)
    ensures historyBatches == HistoryOps(Chunks(toUpdate, BatchSize), timestamp)
  {
    updateBatches, historyBatches := [], [];
    ghost var updated: seq<seq<ServerRow>> := [];
    var i := 0;
    while i < |toUpdate|
      invariant 0 <= i
      invariant updated + Chunks(toUpdate[Min(i, |toUpdate|)..], BatchSize) == Chunks(toUpdate, BatchSize)
      invariant updateBatches == UpdateOps(toUpdate[..Min(i, |toUpdate|)])
      invariant historyBatches == HistoryOps(updated, timestamp)
    {
      var batch := toUpdate[i..Min(i + BatchSize, |toUpdate|)];
      UpdateStep(updated, toUpdate, i, timestamp);
      updateBatches := updateBatches + UpdateOps(batch);
      historyBatches := historyBatches + [CreateHistory(SamplesOf(batch, timestamp))];
      updated := updated + [batch];
      i := i + BatchSize;
    }
    assert Chunks(toUpdate[Min(i, |toUpdate|)..], BatchSize) == [];
    assert updated + [] == updated;
    assert toUpdate[..Min(i, |toUpdate|)] == toUpdate;
  }

  /** The two batching loops of `getServers`: the creates go in batches of
      5000 rows, each update is its own call, and every batch of either
      kind, creates first, adds one history call. */
  method PlanBatches(toCreate: seq<ServerRow>, toUpdate: seq<ServerRow>, timestamp: int)
    returns (createBatches: seq<Op>, updateBatches: seq<Op>, historyBatches: seq<Op>)
    ensures createBatches == CreateOps(Chunks(toCreate, BatchSize))
    ensures updateBatches == UpdateOps(toUpdate)
    ensures historyBatches == HistoryOps(Chunks(toCreate, BatchSize) + Chunks(toUpdate, BatchSize), timestamp)
  {
    var createHistory, updateHistory;
    createBatches, createHistory := BatchCreates(toCreate, timestamp);
    updateBatches, updateHistory := BatchUpdates(toUpdate, timestamp);
    historyBatches := createHistory + updateHistory;
    HistoryOpsAppend(Chunks(toCreate, BatchSize), Chunks(toUpdate, BatchSize), timestamp);
  }

  /** The calls of one sync, in the order they are awaited: creates, then
      updates, then history. */
  function PlannedOps(rows: seq<ServerRow>, existing: set<string>, timestamp: int): seq<Op> {
    var toCreate := ToCreate(rows, existing);
    var toUpdate := ToUpdate(rows, existing);
    CreateOps(Chunks(toCreate, BatchSize)) + UpdateOps(toUpdate)
      + HistoryOps(Chunks(toCreate, BatchSize) + Chunks(toUpdate, BatchSize), timestamp)
  }

  /** The number of calls and the size of each: `ceil(n / 5000)` create
      calls of 1 to 5000 rows, one update per row, and as many history calls
      as there are batches, none of more than 5000 samples. */
  lemma BatchShape(toCreate: seq<ServerRow>, toUpdate: seq<ServerRow>, timestamp: int)
    ensures |CreateOps(Chunks(toCreate, BatchSize))| == CeilDiv(|toCreate|, BatchSize)
    ensures forall k :: 0 <= k < |Chunks(toCreate, BatchSize)| ==> 0 < |CreateOps(Chunks(toCreate, BatchSize))[k].rows| <= BatchSize
    ensures |UpdateOps(toUpdate)| == |toUpdate|
    ensures |HistoryOps(Chunks(toCreate, BatchSize) + Chunks(toUpdate, BatchSize), timestamp)|
            == CeilDiv(|toCreate|, BatchSize) + CeilDiv(|toUpdate|, BatchSize)
    ensures var h := HistoryOps(Chunks(toCreate, BatchSize) + Chunks(toUpdate, BatchSize), timestamp);
            forall k :: 0 <= k < |h| ==> 0 < |h[k].samples| <= BatchSize
  {
    ChunksCount(toCreate, BatchSize);
    ChunksCount(toUpdate, BatchSize);
    ChunksSizes(toCreate, BatchSize);
    ChunksSizes(toUpdate, BatchSize);
  }

  lemma SamplesOfAppend(a: seq<ServerRow>, b: seq<ServerRow>, timestamp: int)
    ensures SamplesOf(a + b, timestamp) == SamplesOf(a, timestamp) + SamplesOf(b, timestamp)
  {
  }

  lemma {:induction false} SamplesOfCreates(batches: seq<seq<ServerRow>>)
    ensures Samples(CreateOps(batches)) == []
    decreases |batches|
  {
    if batches != [] {
      SamplesOfCreates(batches[..|batches| - 1]);
    }
  }

  lemma {:induction false} SamplesOfUpdates(rows: seq<ServerRow>)
    ensures Samples(UpdateOps(rows)) == []
    decreases |rows|
  {
    if rows != [] {
      SamplesOfUpdates(rows[..|rows| - 1]);
    }
  }

  lemma {:induction false} SamplesOfHistory(batches: seq<seq<ServerRow>>, timestamp: int)
    ensures Samples(HistoryOps(batches, timestamp)) == SamplesOf(Concat(batches), timestamp)
    decreases |batches|
  {
    if batches != [] {
      var init := batches[..|batches| - 1];
      var last := batches[|batches| - 1];
      SamplesOfHistory(init, timestamp);
      assert batches == init + [last];
      HistoryOpsSnoc(init, last, timestamp);
      SamplesSnoc(HistoryOps(init, timestamp), CreateHistory(SamplesOf(last, timestamp)));
      ConcatSnoc(init, last);
      SamplesOfAppend(Concat(init), last, timestamp);
    }
  }

  /** All fulfilled, the sync adds exactly one sample per row, created rows
      first: its id, its players and the one timestamp of the sync. */
  lemma SyncSamples(rows: seq<ServerRow>, existing: set<string>, timestamp: int)
    ensures Samples(PlannedOps(rows, existing, timestamp))
            == SamplesOf(ToCreate(rows, existing) + ToUpdate(rows, existing), timestamp)
  {
    var toCreate := ToCreate(rows, existing);
    var toUpdate := ToUpdate(rows, existing);
    var c := Chunks(toCreate, BatchSize);
    var w := Chunks(toUpdate, BatchSize);
    SamplesAppend(CreateOps(c) + UpdateOps(toUpdate), HistoryOps(c + w, timestamp));
    SamplesAppend(CreateOps(c), UpdateOps(toUpdate));
    SamplesOfCreates(c);
    SamplesOfUpdates(toUpdate);
    SamplesOfHistory(c + w, timestamp);
    ConcatAppend(c, w);
    ChunksConcat(toCreate, BatchSize);
    ChunksConcat(toUpdate, BatchSize);
  }

  lemma {:induction false} RunCreates(st: StoreState, batches: seq<seq<ServerRow>>)
    ensures Run(st, CreateOps(batches), {}) == st.(servers := InsertNew(st.servers, Concat(batches)))
    decreases |batches|
  {
    if batches != [] {
      var init := batches[..|batches| - 1];
      var last := batches[|batches| - 1];
      var ops := CreateOps(batches);
      assert ops == CreateOps(init) + [CreateMany(last)];
      assert ops[..|ops| - 1] == CreateOps(init);
      RunCreates(st, init);
      var before := st.(servers := InsertNew(st.servers, Concat(init)));
      assert Run(st, ops, {}) == Step(before, CreateMany(last), true);
      assert batches == init + [last];
      ConcatAppend(init, [last]);
      assert Concat([last]) == last + Concat([]);
      assert Concat(batches) == Concat(init) + last;
      InsertNewAppend(st.servers, Concat(init), last);
      assert Step(before, CreateMany(last), true).servers == InsertNew(st.servers, Concat(batches));
    }
  }

  lemma {:induction false} RunUpdates(st: StoreState, rows: seq<ServerRow>)
    ensures Run(st, UpdateOps(rows), {}) == st.(servers := UpdateAll(st.servers, rows))
    decreases |rows|
  {
    if rows != [] {
      RunUpdates(st, rows[..|rows| - 1]);
    }
  }

  lemma {:induction false} RunHistoryServers(st: StoreState, batches: seq<seq<ServerRow>>, timestamp: int)
    ensures Run(st, HistoryOps(batches, timestamp), {}).servers == st.servers
    decreases |batches|
  {
    if batches != [] {
      RunHistoryServers(st, batches[..|batches| - 1], timestamp);
    }
  }

  /** The samples of a sync, one per fetched row: there are as many as rows,
      all share the sync's timestamp, and they are exactly the rows' ids and
      player counts. */
  lemma SyncSampleRows(rows: seq<ServerRow>, existing: set<string>, timestamp: int)
    ensures var s := Samples(PlannedOps(rows, existing, timestamp));
            |s| == |rows|
            && (forall k :: 0 <= k < |s| ==> s[k].timestamp == timestamp)
            && (forall row :: row in rows ==> HistoryRow(row.id, row.playersCurrent, timestamp) in s)
            && (forall h :: h in s ==> exists row :: row in rows && h == HistoryRow(row.id, row.playersCurrent, timestamp))
  {
    SyncSamples(rows, existing, timestamp);
    var t := ToCreate(rows, existing) + ToUpdate(rows, existing);
    var s := SamplesOf(t, timestamp);
    FilterPartition(rows, InTable(existing), NotInTable(existing));
    forall row | row in rows ensures HistoryRow(row.id, row.playersCurrent, timestamp) in s {
      PartitionRows(rows, existing, row);
      assert row in t;
      var k :| 0 <= k < |t| && t[k] == row;
      assert s[k] == HistoryRow(row.id, row.playersCurrent, timestamp);
    }
    forall h | h in s ensures exists row :: row in rows && h == HistoryRow(row.id, row.playersCurrent, timestamp) {
      var k :| 0 <= k < |s| && s[k] == h;
      PartitionRows(rows, existing, t[k]);
      assert t[k] in t;
    }
  }

  /** The batches of each kind together are that kind's rows, in order. */
  lemma BatchesCover(toCreate: seq<ServerRow>, toUpdate: seq<ServerRow>)
    ensures Concat(Chunks(toCreate, BatchSize)) == toCreate
    ensures Concat(Chunks(toUpdate, BatchSize)) == toUpdate
  {
    ChunksConcat(toCreate, BatchSize);
    ChunksConcat(toUpdate, BatchSize);
  }

  /** All fulfilled, the sync's effect on the server table is inserting the
      new rows and then updating the known ones; the history calls leave
      the table alone. */
  lemma SyncServers(st: StoreState, rows: seq<ServerRow>, existing: set<string>, timestamp: int)
    ensures Run(st, PlannedOps(rows, existing, timestamp), {}).servers
            == UpdateAll(InsertNew(st.servers, ToCreate(rows, existing)), ToUpdate(rows, existing))
  {
    var toCreate := ToCreate(rows, existing);
    var toUpdate := ToUpdate(rows, existing);
    var c := Chunks(toCreate, BatchSize);
    var w := Chunks(toUpdate, BatchSize);
    var creates, updates, histories := CreateOps(c), UpdateOps(toUpdate), HistoryOps(c + w, timestamp);
    RunAppend(st, creates + updates, histories);
    RunAppend(st, creates, updates);
    RunCreates(st, c);
    ChunksConcat(toCreate, BatchSize);
    var st1 := Run(st, creates, {});
    RunUpdates(st1, toUpdate);
    RunHistoryServers(Run(st1, updates, {}), c + w, timestamp);
  }

  /** Where each row of a partition of distinct rows goes. */
  lemma PartitionIds(st: StoreState, rows: seq<ServerRow>)
    requires DistinctIds(rows)
    ensures var existing := ExistingIds(st.servers, rows);
            DistinctIds(ToCreate(rows, existing)) && DistinctIds(ToUpdate(rows, existing))
            && (forall k :: 0 <= k < |ToCreate(rows, existing)| ==> ToCreate(rows, existing)[k].id !in st.servers)
            && (forall k :: 0 <= k < |ToUpdate(rows, existing)| ==> ToUpdate(rows, existing)[k].id in st.servers)
  {
    var existing := ExistingIds(st.servers, rows);
    var toCreate := ToCreate(rows, existing);
    var toUpdate := ToUpdate(rows, existing);
    FilterDistinctIds(rows, NotInTable(existing));
    FilterDistinctIds(rows, InTable(existing));
    forall k | 0 <= k < |toCreate| ensures toCreate[k].id !in st.servers {
      PartitionRows(rows, existing, toCreate[k]);
    }
    forall k | 0 <= k < |toUpdate| ensures toUpdate[k].id in st.servers {
      PartitionRows(rows, existing, toUpdate[k]);
    }
  }

  /** A fetched row whose id the table lacks is inserted, and no update
      touches it. */
  lemma StoresNewRow(m: map<string, ServerRow>, rows: seq<ServerRow>, row: ServerRow)
    requires DistinctIds(rows) && row in rows && row.id !in m
    ensures var existing := ExistingIds(m, rows);
            var after := UpdateAll(InsertNew(m, ToCreate(rows, existing)), ToUpdate(rows, existing));
            row.id in after && after[row.id] == row
  {
    var existing := ExistingIds(m, rows);
    var toCreate := ToCreate(rows, existing);
    var toUpdate := ToUpdate(rows, existing);
    PartitionIds(StoreState(m, []), rows);
    PartitionRows(rows, existing, row);
    var j :| 0 <= j < |toCreate| && toCreate[j] == row;
    InsertNewValues(m, toCreate);
    UpdateAllValues(InsertNew(m, toCreate), toUpdate);
  }

  /** A fetched row whose id the table holds is updated to the row. */
  lemma StoresKnownRow(m: map<string, ServerRow>, rows: seq<ServerRow>, row: ServerRow)
    requires DistinctIds(rows) && row in rows && row.id in m
    ensures var existing := ExistingIds(m, rows);
            var after := UpdateAll(InsertNew(m, ToCreate(rows, existing)), ToUpdate(rows, existing));
            row.id in after && after[row.id] == row
  {
    var existing := ExistingIds(m, rows);
    var toCreate := ToCreate(rows, existing);
    var toUpdate := ToUpdate(rows, existing);
    PartitionIds(StoreState(m, []), rows);
    PartitionRows(rows, existing, row);
    var j :| 0 <= j < |toUpdate| && toUpdate[j] == row;
    UpdateAllValues(InsertNew(m, toCreate), toUpdate);
  }

  /** Inserting the new rows of a partition and then updating the known
      ones stores every row. */
  lemma PartitionStoresFetched(m: map<string, ServerRow>, rows: seq<ServerRow>)
    requires DistinctIds(rows)
    ensures var existing := ExistingIds(m, rows);
            var after := UpdateAll(InsertNew(m, ToCreate(rows, existing)), ToUpdate(rows, existing));
            forall k :: 0 <= k < |rows| ==> rows[k].id in after && after[rows[k].id] == rows[k]
  {
    forall k | 0 <= k < |rows|
      ensures var existing := ExistingIds(m, rows);
              var after := UpdateAll(InsertNew(m, ToCreate(rows, existing)), ToUpdate(rows, existing));
              rows[k].id in after && after[rows[k].id] == rows[k]
    {
      if rows[k].id in m {
        StoresKnownRow(m, rows, rows[k]);
      } else {
        StoresNewRow(m, rows, rows[k]);
      }
    }
  }

  /** ... and leaves every server that is not among the rows as it was. */
  lemma PartitionKeepsOthers(m: map<string, ServerRow>, rows: seq<ServerRow>)
    requires DistinctIds(rows)
    ensures var existing := ExistingIds(m, rows);
            var after := UpdateAll(InsertNew(m, ToCreate(rows, existing)), ToUpdate(rows, existing));
            forall id :: id in m && id !in Ids(rows) ==> id in after && after[id] == m[id]
  {
    var existing := ExistingIds(m, rows);
    var toCreate := ToCreate(rows, existing);
    var toUpdate := ToUpdate(rows, existing);
    PartitionIds(StoreState(m, []), rows);
    var inserted := InsertNew(m, toCreate);
    UpdateAllValues(inserted, toUpdate);
    var after := UpdateAll(inserted, toUpdate);
    forall id | id in m && id !in Ids(rows) ensures id in after && after[id] == m[id] {
      forall j | 0 <= j < |toUpdate| ensures toUpdate[j].id != id {
        PartitionRows(rows, existing, toUpdate[j]);
        var k :| 0 <= k < |rows| && rows[k] == toUpdate[j];
        assert Ids(rows)[k] == toUpdate[j].id;
      }
    }
  }

  /** All fulfilled, a sync of rows with distinct ids stores every row as it
      was fetched, whether it was new or known, and leaves every server it
      did not fetch as it was. */
  lemma SyncStoresRows(st: StoreState, rows: seq<ServerRow>, timestamp: int)
    requires DistinctIds(rows)
    ensures var after := Run(st, PlannedOps(rows, ExistingIds(st.servers, rows), timestamp), {}).servers;
            (forall k :: 0 <= k < |rows| ==> rows[k].id in after && after[rows[k].id] == rows[k])
            && (forall id :: id in st.servers && id !in Ids(rows) ==> id in after && after[id] == st.servers[id])
  {
    SyncServers(st, rows, ExistingIds(st.servers, rows), timestamp);
    PartitionStoresFetched(st.servers, rows);
    PartitionKeepsOthers(st.servers, rows);
  }

  /** The rows the sync writes, largest player count first. */
  function Fetched(u: ServerUtils, frames: seq<Frame>): (rows: seq<ServerRow>)
    ensures SortedDesc(rows, PlayersCurrent)
    ensures multiset(rows) == multiset(Rows(Filter(AcceptedViews(u, FiveM, frames), IsGerman)))
  {
    SortDesc(Rows(Filter(AcceptedViews(u, FiveM, frames), IsGerman)), PlayersCurrent)
  }

  /** The sort in place that `getServers` does; the `.slice(0, 10000)`
      after it builds a copy that is thrown away. */
  method SortByPlayers(servers: seq<ServerRow>) returns (sorted: seq<ServerRow>)
    ensures sorted == SortDesc(servers, PlayersCurrent)
  {
    sorted := SortDesc(servers, PlayersCurrent);
  }

  /** `getServers()`: the frames the stream delivered before the reader
      signalled its end, the sync's timestamp, and the calls the store
      rejects are its inputs. The store holds what the calls make of it, in
      order. */
  method GetServers(store: Store, u: ServerUtils, frames: seq<Frame>, timestamp: int, rejected: set<nat>)
    returns (ops: seq<Op>)
    modifies store
    ensures ops == PlannedOps(Fetched(u, frames), ExistingIds(old(store.servers), Fetched(u, frames)), timestamp)
    ensures store.State() == Run(old(store.State()), ops, rejected)
  {
    var views := ReadBodyToServers(u, FiveM, frames);
    var servers := CollectServers(views);
    servers := SortByPlayers(servers);
    var existingIds := set id | id in store.servers && id in Ids(servers);
    var toUpdate := Filter(servers, InTable(existingIds));
    var toCreate := Filter(servers, NotInTable(existingIds));
    var createBatches, updateBatches, historyBatches := PlanBatches(toCreate, toUpdate, timestamp);
    ops := createBatches + updateBatches + historyBatches;
    store.Execute(ops, rejected);
  }

  /** Whatever calls the store rejects, a sync removes no server. */
  lemma SyncKeepsServers(st: StoreState, rows: seq<ServerRow>, timestamp: int, rejected: set<nat>)
    ensures st.servers.Keys <= Run(st, PlannedOps(rows, ExistingIds(st.servers, rows), timestamp), rejected).servers.Keys
  {
    RunKeepsServers(st, PlannedOps(rows, ExistingIds(st.servers, rows), timestamp), rejected);
  }

  /** The history is older than this many milliseconds when it is deleted. */
  const DayMs := 24 * 60 * 60 * 1000
  const HistoryRetentionMs := 7 * DayMs
  const ActivityWindowMs := 3 * DayMs

  function KeptHistory(history: seq<HistoryRow>, weekAgo: int): (kept: seq<HistoryRow>)
    ensures forall h :: h in kept <==> h in history && h.timestamp >= weekAgo
  {
    var kept := Filter(history, (h: HistoryRow) => h.timestamp >= weekAgo);
    forall h ensures h in kept <==> h in history && h.timestamp >= weekAgo {
      FilterMembership(history, (h: HistoryRow) => h.timestamp >= weekAgo, h);
    }
    kept
  }

  /** The store after `deleteOldServers()` whose two clock readings are
      `firstNow` and `secondNow`: first the samples older than a week go,
      then every server without a sample in the last three days goes, its
      samples with it. */
  function Retained(st: StoreState, firstNow: int, secondNow: int): StoreState {
    var pruned := StoreState(st.servers, KeptHistory(st.history, firstNow - HistoryRetentionMs));
    var stale := Stale(pruned, secondNow - ActivityWindowMs);
    StoreState(st.servers - stale, Filter(pruned.history, (h: HistoryRow) => h.serverId !in stale))
  }

  /** `deleteOldServers()`. */
  method DeleteOldServers(store: Store, firstNow: int, secondNow: int)
    modifies store
    ensures store.State() == Retained(old(store.State()), firstNow, secondNow)
  {
    var oneWeekAgo := firstNow - HistoryRetentionMs;
    store.DeleteHistoryBefore(oneWeekAgo);
    var threeDaysAgo := secondNow - ActivityWindowMs;
    var serversToDelete := store.StaleServers(threeDaysAgo);
    if |serversToDelete| > 0 {
      store.DeleteServers(serversToDelete);
    } else {
      FilterAll(store.history, (h: HistoryRow) => h.serverId !in serversToDelete);
      assert store.servers - serversToDelete == store.servers;
    }
  }

  /** Pruning samples older than the week does not change which servers
      are quiet, since the week reaches further back than the three days. */
  lemma PruneKeepsRecent(history: seq<HistoryRow>, weekAgo: int, threeDaysAgo: int, id: string)
    requires weekAgo <= threeDaysAgo
    ensures HasSampleSince(KeptHistory(history, weekAgo), id, threeDaysAgo) <==> HasSampleSince(history, id, threeDaysAgo)
  {
    var kept := KeptHistory(history, weekAgo);
    if HasSampleSince(kept, id, threeDaysAgo) {
      var k :| 0 <= k < |kept| && kept[k].serverId == id && kept[k].timestamp >= threeDaysAgo;
      assert kept[k] in history;
      var j :| 0 <= j < |history| && history[j] == kept[k];
    }
    if HasSampleSince(history, id, threeDaysAgo) {
      var j :| 0 <= j < |history| && history[j].serverId == id && history[j].timestamp >= threeDaysAgo;
      assert history[j] in kept;
      var k :| 0 <= k < |kept| && kept[k] == history[j];
    }
  }

  /** With the second reading no earlier than the first, a server survives
      exactly when it has a sample in the three days before the second
      reading, and a sample survives exactly when it is no older than a week
      and its server survives. A sample right at either cutoff counts. */
  lemma RetainedIff(st: StoreState, firstNow: int, secondNow: int, id: string, h: HistoryRow)
    requires firstNow <= secondNow
    ensures id in Retained(st, firstNow, secondNow).servers <==>
            id in st.servers && HasSampleSince(st.history, id, secondNow - ActivityWindowMs)
    ensures h in Retained(st, firstNow, secondNow).history <==>
            h in st.history && h.timestamp >= firstNow - HistoryRetentionMs
            && !(h.serverId in st.servers && !HasSampleSince(st.history, h.serverId, secondNow - ActivityWindowMs))
  {
    var pruned := StoreState(st.servers, KeptHistory(st.history, firstNow - HistoryRetentionMs));
    var stale := Stale(pruned, secondNow - ActivityWindowMs);
    PruneKeepsRecent(st.history, firstNow - HistoryRetentionMs, secondNow - ActivityWindowMs, id);
    PruneKeepsRecent(st.history, firstNow - HistoryRetentionMs, secondNow - ActivityWindowMs, h.serverId);
    FilterMembership(pruned.history, (h: HistoryRow) => h.serverId !in stale, h);
  }

  /** A server that survives keeps its row as it was. */
  lemma RetainedRows(st: StoreState, firstNow: int, secondNow: int)
    ensures forall id :: id in Retained(st, firstNow, secondNow).servers ==>
              id in st.servers && Retained(st, firstNow, secondNow).servers[id] == st.servers[id]
  {
  }

  /** With no sample at all, every server goes; with a sample of every
      server in the last three days, none does. */
  lemma RetainedExtremes(st: StoreState, firstNow: int, secondNow: int)
    requires firstNow <= secondNow
    ensures st.history == [] ==> Retained(st, firstNow, secondNow).servers == map[]
    ensures (forall id :: id in st.servers ==> HasSampleSince(st.history, id, secondNow - ActivityWindowMs))
            ==> Retained(st, firstNow, secondNow).servers == st.servers
  {
    var r := Retained(st, firstNow, secondNow);
    forall id ensures id in r.servers <==> id in st.servers && HasSampleSince(st.history, id, secondNow - ActivityWindowMs) {
      RetainedIff(st, firstNow, secondNow, id, HistoryRow("", 0, 0));
    }
    if st.history == [] {
      assert r.servers.Keys == {};
    }
    if forall id :: id in st.servers ==> HasSampleSince(st.history, id, secondNow - ActivityWindowMs) {
      assert r.servers.Keys == st.servers.Keys;
    }
  }
}

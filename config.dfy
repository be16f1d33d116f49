/**
 * The settings of config.py: the bot token, the store credentials, the
 * administrator ids and the warning threshold, with the field validators
 * that run on values taken from the environment.
 */
module Config {
  import opened Wrappers
  import opened Text

  /** The shortest bot token `validate_bot_token` accepts. */
  const MinTokenLength := 20

  /** `MAX_WARNINGS` when the environment does not set it. */
  const DefaultMaxWarnings := 3

  /** `ADMIN_IDS` when the environment does not set it (`default_factory=list`). */
  const DefaultAdminIds: seq<int> := []

  datatype AdminIdsCause = EmptyList | NotAnInteger(piece: string)

  /** The `ValueError`s the validators raise, and a required field that is absent. */
  datatype ConfigError =
    | InvalidBotToken
    | AdminIdsParse(cause: AdminIdsCause)
    | MaxWarningsTooSmall
    | MissingField(name: string)

  /** The value handed to `parse_admin_ids`: a string from the environment, or an already typed list. */
  datatype AdminIdsInput = IdsText(s: string) | IdsList(ids: seq<int>)

  /** `validate_bot_token`: an empty token or one shorter than 20 characters is refused; otherwise the token is kept. */
  function ValidateBotToken(v: string): (r: Result<string, ConfigError>)
    ensures r.Ok? <==> |v| >= MinTokenLength
    ensures r.Ok? ==> r.value == v
    ensures r.Err? ==> r.error == InvalidBotToken
  {
    if v == [] || |v| < MinTokenLength then Err(InvalidBotToken) else Ok(v)
  }

  /** The pieces the comprehension keeps: each piece stripped, and the blank ones dropped. */
  function NonBlank(pieces: seq<string>): (r: seq<string>)
    ensures forall i :: 0 <= i < |r| ==> r[i] != [] && !IsSpace(r[i][0])
    decreases |pieces|
  {
    if pieces == [] then [] else Kept(pieces[0]) + NonBlank(pieces[1..])
  }

  /** What the comprehension keeps of one piece: the piece stripped, unless that leaves nothing. */
  function Kept(piece: string): seq<string> {
    var p := Strip(piece);
    if p == [] then [] else [p]
  }

  /** Nothing is kept exactly when every piece is blank. */
  lemma {:induction false} NonBlankEmptyIff(pieces: seq<string>)
    ensures NonBlank(pieces) == [] <==> forall i :: 0 <= i < |pieces| ==> AllSpace(pieces[i])
    decreases |pieces|
  {
    if pieces != [] {
      NonBlankEmptyIff(pieces[1..]);
      assert forall i :: 0 <= i < |pieces| - 1 ==> pieces[1..][i] == pieces[i + 1];
    }
  }

  /** A single piece is kept, stripped, exactly when it is not blank. */
  lemma NonBlankSingle(p: string)
    ensures NonBlank([p]) == if AllSpace(p) then [] else [Strip(p)]
  {
    assert [p][1..] == [];
  }

  /** The comprehension works piece by piece: keeping from a concatenation concatenates what is kept. */
  lemma {:induction false} NonBlankAppend(a: seq<string>, b: seq<string>)
    ensures NonBlank(a + b) == NonBlank(a) + NonBlank(b)
    decreases |a|
  {
    if a == [] {
      assert a + b == b;
    } else {
      assert (a + b)[0] == a[0] && (a + b)[1..] == a[1..] + b;
      NonBlankAppend(a[1..], b);
      assert NonBlank(a + b) == Kept(a[0]) + (NonBlank(a[1..]) + NonBlank(b));
    }
  }

  /**
   * The kept pieces parsed in order; the first one that is not an integer
   * raises, and the error names it.
   */
  function ParseAll(kept: seq<string>): (r: Result<seq<int>, AdminIdsCause>)
    ensures r.Ok? ==> |r.value| == |kept|
    ensures r.Ok? ==> forall i :: 0 <= i < |kept| ==> ParseInt(kept[i]) == Some(r.value[i])
    ensures r.Err? ==> r.error.NotAnInteger? && r.error.piece in kept && ParseInt(r.error.piece).None?
    decreases |kept|
  {
    if kept == [] then Ok([])
    else
      match ParseInt(kept[0])
      case None => Err(NotAnInteger(kept[0]))
      case Some(n) =>
        var rest := ParseAll(kept[1..]);
        assert forall j :: 0 <= j < |kept| - 1 ==> kept[j + 1] == kept[1..][j];
        assert rest.Err? ==> rest.error.piece in kept;
        match rest
        case Err(e) => Err(e)
        case Ok(ns) => Ok([n] + ns)
  }

  /**
   * `[int(x.strip()) for x in pieces if x.strip()]`: the kept pieces parsed in
   * order; the first kept piece that is not an integer raises.
   */
  function ParsePieces(pieces: seq<string>): (r: Result<seq<int>, AdminIdsCause>)
    ensures r.Ok? ==> |r.value| == |NonBlank(pieces)|
    ensures r.Ok? ==> forall i :: 0 <= i < |r.value| ==> ParseInt(NonBlank(pieces)[i]) == Some(r.value[i])
    ensures r.Err? ==> r.error.NotAnInteger? && r.error.piece in NonBlank(pieces) && ParseInt(r.error.piece).None?
  {
    ParseAll(NonBlank(pieces))
  }

  /** The pieces parse exactly when every kept piece is an integer. */
  lemma ParsePiecesOkIff(pieces: seq<string>)
    ensures ParsePieces(pieces).Ok? <==> forall i :: 0 <= i < |NonBlank(pieces)| ==> ParseInt(NonBlank(pieces)[i]).Some?
  {
    var kept := NonBlank(pieces);
    var r := ParsePieces(pieces);
    if r.Err? {
      var k :| 0 <= k < |kept| && kept[k] == r.error.piece;
      assert ParseInt(kept[k]).None?;
    }
  }

  /**
   * `parse_admin_ids`: a string is split at commas and its non-blank pieces
   * parsed as integers, in order; a string with no such piece, or with a piece
   * that is not an integer, is refused. Any other value passes unchanged.
   */
  function ParseAdminIds(v: AdminIdsInput): (r: Result<seq<int>, ConfigError>)
    ensures v.IdsList? ==> r == Ok(v.ids)
    ensures v.IdsText? && r.Ok? ==> r.value != [] && |r.value| == |NonBlank(Split(v.s, ','))|
    ensures v.IdsText? && r.Ok? ==> forall i :: 0 <= i < |r.value| ==> ParseInt(NonBlank(Split(v.s, ','))[i]) == Some(r.value[i])
    ensures v.IdsText? && r.Err? && r.error.AdminIdsParse? && r.error.cause.NotAnInteger? ==>
      r.error.cause.piece in NonBlank(Split(v.s, ',')) && ParseInt(r.error.cause.piece).None?
    ensures r.Err? ==> r.error.AdminIdsParse?
  {
    match v
    case IdsList(ids) => Ok(ids)
    case IdsText(s) =>
      match ParsePieces(Split(s, ','))
      case Err(cause) => Err(AdminIdsParse(cause))
      case Ok(ids) => if ids == [] then Err(AdminIdsParse(EmptyList)) else Ok(ids)
  }

  /** `validate_max_warnings`: a threshold below 1 is refused; otherwise it is kept. */
  function ValidateMaxWarnings(v: int): (r: Result<int, ConfigError>)
    ensures r.Ok? <==> v >= 1
    ensures r.Ok? ==> r.value == v
    ensures r.Err? ==> r.error == MaxWarningsTooSmall
  {
    if v < 1 then Err(MaxWarningsTooSmall) else Ok(v)
  }

  /** Each id in its decimal form, in order. */
  function Printed(ids: seq<int>): (strs: seq<string>)
    ensures |strs| == |ids|
    ensures forall i :: 0 <= i < |ids| ==> strs[i] == DecimalString(ids[i])
    decreases |ids|
  {
    if ids == [] then [] else [DecimalString(ids[0])] + Printed(ids[1..])
  }

  /** The comma-separated form of a list of ids, as an environment file would hold it. */
  function IdsToText(ids: seq<int>): string
    requires ids != []
  {
    Join(Printed(ids), ',')
  }

  /** One printed id is already stripped, and parses back. */
  lemma PrintedIdParses(n: int)
    ensures DecimalString(n) != [] && Strip(DecimalString(n)) == DecimalString(n)
    ensures ParseInt(Strip(DecimalString(n))) == Some(n)
  {
    var d := DecimalString(n);
    assert !IsSpace(d[0]) && !IsSpace(d[|d| - 1]);
    ParseDecimalString(n);
  }

  /** A kept piece that parses, in front of pieces that parse, adds its value in front. */
  lemma ParsePiecesCons(p: string, tail: seq<string>, n: int, ns: seq<int>)
    requires Strip(p) != [] && ParseInt(Strip(p)) == Some(n) && ParsePieces(tail) == Ok(ns)
    ensures ParsePieces([p] + tail) == Ok([n] + ns)
  {
    assert ([p] + tail)[0] == p && ([p] + tail)[1..] == tail;
    var kept := NonBlank([p] + tail);
    assert kept == [Strip(p)] + NonBlank(tail);
    assert kept[0] == Strip(p) && kept[1..] == NonBlank(tail);
  }

  /** Printed decimal ids, stripped and parsed, give the ids back. */
  lemma {:induction false} ParsePrintedIds(ids: seq<int>)
    ensures ParsePieces(Printed(ids)) == Ok(ids)
    decreases |ids|
  {
    if ids != [] {
      var tail := Printed(ids[1..]);
      assert Printed(ids) == [DecimalString(ids[0])] + tail;
      PrintedIdParses(ids[0]);
      ParsePrintedIds(ids[1..]);
      ParsePiecesCons(DecimalString(ids[0]), tail, ids[0], ids[1..]);
      assert ids == [ids[0]] + ids[1..];
    }
  }

  /** Round trip: a non-empty list of ids written comma-separated parses back to the same list, in order. */
  lemma AdminIdsRoundTrip(ids: seq<int>)
    requires ids != []
    ensures ParseAdminIds(IdsText(IdsToText(ids))) == Ok(ids)
  {
    var strs := Printed(ids);
    forall i | 0 <= i < |strs| ensures ',' !in strs[i] {
      var d := DecimalString(ids[i]);
      assert forall j :: 0 <= j < |d| ==> d[j] != ',';
    }
    SplitJoin(strs, ',');
    ParsePrintedIds(ids);
  }

  /** Splitting text made only of whitespace and commas leaves only blank pieces. */
  lemma {:induction false} BlankPiecesOnly(s: string)
    requires forall i :: 0 <= i < |s| ==> IsSpace(s[i]) || s[i] == ','
    ensures forall i :: 0 <= i < |Split(s, ',')| ==> AllSpace(Split(s, ',')[i])
    decreases |s|
  {
    if s != [] {
      BlankPiecesOnly(s[1..]);
    }
  }

  lemma {:induction false} BlankPiecesParseToNothing(pieces: seq<string>)
    requires forall i :: 0 <= i < |pieces| ==> AllSpace(pieces[i])
    ensures ParsePieces(pieces) == Ok([])
    decreases |pieces|
  {
    if pieces != [] {
      BlankPiecesParseToNothing(pieces[1..]);
    }
  }

  /** A string of nothing but whitespace and commas is refused as an empty list. */
  lemma BlankAdminIdsRejected(s: string)
    requires forall i :: 0 <= i < |s| ==> IsSpace(s[i]) || s[i] == ','
    ensures ParseAdminIds(IdsText(s)) == Err(AdminIdsParse(EmptyList))
  {
    BlankPiecesOnly(s);
    BlankPiecesParseToNothing(Split(s, ','));
  }

  /** Conversely, a string with a piece that is not blank is never refused as an empty list. */
  lemma NonBlankPieceNotEmptyList(s: string, k: nat)
    requires k < |Split(s, ',')| && !AllSpace(Split(s, ',')[k])
    ensures ParseAdminIds(IdsText(s)) != Err(AdminIdsParse(EmptyList))
  {
    var kept := NonBlank(Split(s, ','));
    NonBlankEmptyIff(Split(s, ','));
    assert kept != [];
    match ParsePieces(Split(s, ','))
    case Ok(ids) =>
      assert |ids| == |kept|;
    case Err(cause) =>
      assert cause.NotAnInteger?;
  }

  /** A string with a kept piece that is not an integer is refused, naming such a piece. */
  lemma NonIntegerAdminIdRejected(s: string, k: nat)
    requires k < |NonBlank(Split(s, ','))| && ParseInt(NonBlank(Split(s, ','))[k]).None?
    ensures ParseAdminIds(IdsText(s)).Err?
    ensures ParseAdminIds(IdsText(s)).error.cause.NotAnInteger?
    ensures ParseAdminIds(IdsText(s)).error.cause.piece in NonBlank(Split(s, ','))
    ensures ParseInt(ParseAdminIds(IdsText(s)).error.cause.piece).None?
  {
  }

  lemma SplitOneCommaCommaTwo()
    ensures Split("1,,2", ',') == ["1", "", "2"]
  {
    assert Split("", ',') == [""];
    assert "2"[1..] == "";
    assert ['2'] + "" == "2";
    assert Split("2", ',') == ["2"];
    assert ",2"[1..] == "2";
    assert Split(",2", ',') == ["", "2"];
    assert ",,2"[1..] == ",2";
    assert Split(",,2", ',') == ["", "", "2"];
    assert "1,,2"[1..] == ",,2" && "1,,2"[0] == '1';
    var rest := ["", "", "2"];
    assert ['1'] + rest[0] == "1" && rest[1..] == ["", "2"];
  }

  lemma ParseOneAndTwo()
    ensures ParseInt("1") == Some(1) && ParseInt("2") == Some(2)
  {
    assert "1"[..0] == "" && "2"[..0] == "";
    assert DigitsValue("1") == 1 && DigitsValue("2") == 2;
  }

  /** A blank piece in front changes nothing. */
  lemma ParsePiecesBlankCons(p: string, tail: seq<string>)
    requires Strip(p) == []
    ensures ParsePieces([p] + tail) == ParsePieces(tail)
  {
    assert ([p] + tail)[0] == p && ([p] + tail)[1..] == tail;
    assert NonBlank([p] + tail) == NonBlank(tail);
  }

  /** `"1,,2"` gives `[1, 2]`: the empty piece between the commas is skipped. */
  lemma EmptyPieceSkipped()
    ensures ParseAdminIds(IdsText("1,,2")) == Ok([1, 2])
  {
    SplitOneCommaCommaTwo();
    ParseOneAndTwo();
    assert Strip("1") == "1" && Strip("") == "" && Strip("2") == "2";
    assert ParsePieces([]) == Ok([]);
    ParsePiecesCons("2", [], 2, []);
    assert ["2"] + [] == ["2"] && [2] + [] == [2];
    ParsePiecesBlankCons("", ["2"]);
    assert [""] + ["2"] == ["", "2"];
    ParsePiecesCons("1", ["", "2"], 1, [2]);
    assert ["1"] + ["", "2"] == ["1", "", "2"] && [1] + [2] == [1, 2];
    assert ParsePieces(Split("1,,2", ',')) == Ok([1, 2]);
  }

  /** The settings once every field is loaded and validated. */
  datatype Settings = Settings(
    botToken: string,
    supabaseUrl: string,
    supabaseKey: string,
    adminIds: seq<int>,
    maxWarnings: int)

  /** The fields as the environment gives them; an absent field is `None`. */
  datatype RawSettings = RawSettings(
    botToken: Option<string>,
    supabaseUrl: Option<string>,
    supabaseKey: Option<string>,
    adminIds: Option<AdminIdsInput>,
    maxWarnings: Option<int>)

  function Required(v: Option<string>, name: string): Result<string, ConfigError> {
    match v
    case None => Err(MissingField(name))
    case Some(s) => Ok(s)
  }

  function ErrorsOf<T>(r: Result<T, ConfigError>): seq<ConfigError> {
    match r
    case Ok(_) => []
    case Err(e) => [e]
  }

  /**
   * `Settings()`: every field is validated; a default is used, unvalidated, for
   * an absent field that has one; all failures are reported together, in field
   * order.
   */
  function LoadSettings(raw: RawSettings): (r: Result<Settings, seq<ConfigError>>)
    ensures r.Ok? <==>
      && raw.botToken.Some? && |raw.botToken.value| >= MinTokenLength
      && raw.supabaseUrl.Some? && raw.supabaseKey.Some?
      && (raw.adminIds.Some? ==> ParseAdminIds(raw.adminIds.value).Ok?)
      && (raw.maxWarnings.Some? ==> raw.maxWarnings.value >= 1)
    ensures r.Ok? ==> r.value.botToken == raw.botToken.value && r.value.maxWarnings >= 1
    ensures r.Ok? ==> r.value.supabaseUrl == raw.supabaseUrl.value && r.value.supabaseKey == raw.supabaseKey.value
    ensures r.Ok? ==> r.value.adminIds == if raw.adminIds.None? then DefaultAdminIds else ParseAdminIds(raw.adminIds.value).value
    ensures r.Ok? ==> r.value.maxWarnings == if raw.maxWarnings.None? then DefaultMaxWarnings else raw.maxWarnings.value
    ensures r.Err? ==> r.error != []
  {
    var token := match raw.botToken case None => Err(MissingField("BOT_TOKEN")) case Some(t) => ValidateBotToken(t);
    var url := Required(raw.supabaseUrl, "SUPABASE_URL");
    var key := Required(raw.supabaseKey, "SUPABASE_KEY");
    var ids := match raw.adminIds case None => Ok(DefaultAdminIds) case Some(v) => ParseAdminIds(v);
    var limit := match raw.maxWarnings case None => Ok(DefaultMaxWarnings) case Some(n) => ValidateMaxWarnings(n);
    if token.Ok? && url.Ok? && key.Ok? && ids.Ok? && limit.Ok? then
      Ok(Settings(token.value, url.value, key.value, ids.value, limit.value))
    else
      Err(ErrorsOf(token) + ErrorsOf(url) + ErrorsOf(key) + ErrorsOf(ids) + ErrorsOf(limit))
  }
}

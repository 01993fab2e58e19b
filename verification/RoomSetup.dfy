/** portal/room_setup.py: a room's plan, applied to its stored settings, booths and translation rows, and
    read back from them. Booths are listed by language code, rows in the order they were stored. */
module RoomSetup {
  import opened Wrappers

  datatype Delivery = Interpreter | AiVoice | AiText | Both

  datatype Engine = Engine(provider: string, model: string)

  datatype Catalog = Catalog(speech: seq<Engine>, translation: seq<Engine>, voice: seq<Engine>)

  datatype Plan = Plan(
    name: string, spoken: string, languages: seq<(string, Delivery)>, captions: bool,
    speech: string, translation: string, voice: string)

  /** A RoomTranslationLanguage. */
  datatype Row = Row(code: string, enabled: bool, tts: bool)

  datatype Service = Service(provider: string, model: string)

  /** What is stored for a room; an absent text is the empty one. */
  datatype Stored = Stored(
    name: string, spoken: string, transcription: bool, speech: Service, translationOn: bool, translation: Service,
    ttsOn: bool, voice: string, booths: seq<string>, rows: seq<Row>)

  // ---- Lists of codes ----

  ghost predicate Unique<T>(codes: seq<T>) {
    forall i, j :: 0 <= i < j < |codes| ==> codes[i] != codes[j]
  }

  function SetOf(codes: seq<string>): set<string> { set c | c in codes }

  lemma SetOfMembers(codes: seq<string>, c: string)
    ensures c in SetOf(codes) <==> c in codes
  {
  }

  lemma SetOfAppended(codes: seq<string>, c: string)
    ensures SetOf(codes + [c]) == SetOf(codes) + {c}
  {
  }

  function Minus(codes: seq<string>, drop: set<string>): seq<string> {
    if codes == [] then []
    else
      var n := |codes| - 1;
      Minus(codes[..n], drop) + if codes[n] in drop then [] else [codes[n]]
  }

  lemma LastOf<T>(s: seq<T>)
    requires s != []
    ensures s == s[..|s| - 1] + [s[|s| - 1]]
  {
  }

  lemma {:induction false} MinusMembers(codes: seq<string>, drop: set<string>)
    ensures forall c :: c in Minus(codes, drop) <==> c in codes && c !in drop
  {
    if codes != [] {
      MinusMembers(codes[..|codes| - 1], drop);
      LastOf(codes);
    }
  }

  lemma MinusOfAppended(codes: seq<string>, c: string, drop: set<string>)
    ensures Minus(codes + [c], drop) == Minus(codes, drop) + if c in drop then [] else [c]
  {
    assert (codes + [c])[..|codes|] == codes;
  }

  lemma {:induction false} MinusTwice(codes: seq<string>, a: set<string>, b: set<string>)
    ensures Minus(Minus(codes, a), b) == Minus(codes, a + b)
  {
    if codes != [] {
      var n := |codes| - 1;
      var rest := Minus(codes[..n], a);
      MinusTwice(codes[..n], a, b);
      MinusOfAppended(rest, codes[n], b);
      assert rest + [] == rest && Minus(rest, b) + [] == Minus(rest, b);
    }
  }

  lemma {:induction false} MinusNothing(codes: seq<string>, drop: set<string>)
    requires forall c :: c in codes ==> c !in drop
    ensures Minus(codes, drop) == codes
  {
    if codes != [] {
      MinusNothing(codes[..|codes| - 1], drop);
      LastOf(codes);
    }
  }

  lemma {:induction false} MinusEverything(codes: seq<string>, drop: set<string>)
    requires forall c :: c in codes ==> c in drop
    ensures Minus(codes, drop) == []
  {
    if codes != [] { MinusEverything(codes[..|codes| - 1], drop); }
  }

  lemma NothingYet(codes: seq<string>, wanted: set<string>, live: set<string>, known: set<string>)
    ensures Minus(codes[..0], wanted) == [] && Minus([], live) == [] && Minus([], known - live) == []
  {
  }

  lemma MinusOfNone(codes: seq<string>)
    ensures Minus(codes, SetOf([])) == codes
  {
    MinusNothing(codes, SetOf([]));
  }

  lemma {:induction false} MinusIsUnique(codes: seq<string>, drop: set<string>)
    requires Unique(codes)
    ensures Unique(Minus(codes, drop))
  {
    if codes != [] {
      var n := |codes| - 1;
      MinusIsUnique(codes[..n], drop);
      MinusMembers(codes[..n], drop);
      var rest := Minus(codes[..n], drop);
      forall i | 0 <= i < |rest| ensures rest[i] != codes[n] { assert rest[i] in codes[..n]; }
    }
  }

  // ---- Listing by code ----

  /** Alphabetic order, from position i on. */
  predicate LessFrom(a: string, b: string, i: nat)
    requires i <= |a| && i <= |b|
    decreases |a| - i
  {
    if i == |b| then false
    else if i == |a| then true
    else a[i] < b[i] || (a[i] == b[i] && LessFrom(a, b, i + 1))
  }

  predicate Less(a: string, b: string) { LessFrom(a, b, 0) }

  lemma {:induction false} LessIsTotal(a: string, b: string, i: nat)
    requires i <= |a| && i <= |b| && a[..i] == b[..i]
    ensures LessFrom(a, b, i) || LessFrom(b, a, i) || a == b
    decreases |a| - i
  {
    if i < |a| && i < |b| && a[i] == b[i] {
      assert a[..i + 1] == a[..i] + [a[i]] && b[..i + 1] == b[..i] + [b[i]];
      LessIsTotal(a, b, i + 1);
    } else if i == |a| && i == |b| {
      assert a == a[..i] && b == b[..i];
    }
  }

  lemma {:induction false} LessChains(a: string, b: string, c: string, i: nat)
    requires i <= |a| && i <= |b| && i <= |c| && LessFrom(a, b, i) && LessFrom(b, c, i)
    ensures LessFrom(a, c, i)
    decreases |a| - i
  {
    if i < |a| && a[i] == b[i] && b[i] == c[i] { LessChains(a, b, c, i + 1); }
  }

  function Insert(codes: seq<string>, c: string): seq<string> {
    if codes == [] || Less(c, codes[0]) then [c] + codes else [codes[0]] + Insert(codes[1..], c)
  }

  /** order_by(language_code). */
  function Listed(codes: seq<string>): seq<string> {
    if codes == [] then [] else Insert(Listed(codes[1..]), codes[0])
  }

  ghost predicate Ascending(codes: seq<string>) {
    forall i, j :: 0 <= i < j < |codes| ==> Less(codes[i], codes[j])
  }

  lemma FirstAndRest(s: seq<string>)
    requires s != []
    ensures s == [s[0]] + s[1..]
  {
  }

  lemma {:induction false} InsertMembers(codes: seq<string>, c: string)
    ensures forall x :: x in Insert(codes, c) <==> x in codes || x == c
  {
    if codes != [] && !Less(c, codes[0]) {
      InsertMembers(codes[1..], c);
      FirstAndRest(codes);
    }
  }

  lemma {:induction false} ListedMembers(codes: seq<string>)
    ensures forall x :: x in Listed(codes) <==> x in codes
  {
    if codes != [] {
      ListedMembers(codes[1..]);
      InsertMembers(Listed(codes[1..]), codes[0]);
      FirstAndRest(codes);
    }
  }

  lemma ConsAscends(c: string, codes: seq<string>)
    requires Ascending(codes) && forall x :: x in codes ==> Less(c, x)
    ensures Ascending([c] + codes)
  {
    hide Less;
    var all := [c] + codes;
    forall i, j | 0 <= i < j < |all| ensures Less(all[i], all[j]) {
      assert all[j] == codes[j - 1] && codes[j - 1] in codes;
      if i > 0 { assert all[i] == codes[i - 1]; }
    }
  }

  lemma {:induction false} InsertAscends(codes: seq<string>, c: string)
    requires Ascending(codes) && c !in codes
    ensures Ascending(Insert(codes, c))
  {
    if codes == [] {
    } else if Less(c, codes[0]) {
      forall x | x in codes ensures Less(c, x) {
        var i :| 0 <= i < |codes| && codes[i] == x;
        if i > 0 { LessChains(c, codes[0], x, 0); }
      }
      ConsAscends(c, codes);
    } else {
      LessIsTotal(c, codes[0], 0);
      hide Less;
      FirstAndRest(codes);
      InsertAscends(codes[1..], c);
      InsertMembers(codes[1..], c);
      forall x | x in Insert(codes[1..], c) ensures Less(codes[0], x) {
        if x != c { var i :| 0 <= i < |codes[1..]| && codes[1..][i] == x; assert codes[i + 1] == x; }
      }
      ConsAscends(codes[0], Insert(codes[1..], c));
    }
  }

  /** Distinct codes are listed in ascending order, each once. */
  lemma {:induction false} ListedAscends(codes: seq<string>)
    requires Unique(codes)
    ensures Ascending(Listed(codes))
  {
    if codes != [] {
      hide Less;
      ListedAscends(codes[1..]);
      ListedMembers(codes[1..]);
      assert codes[0] !in codes[1..];
      InsertAscends(Listed(codes[1..]), codes[0]);
    }
  }

  lemma {:induction false} LessIsStrict(a: string, i: nat)
    requires i <= |a|
    ensures !LessFrom(a, a, i)
    decreases |a| - i
  {
    if i < |a| { LessIsStrict(a, i + 1); }
  }

  lemma ListedIsUnique(codes: seq<string>)
    requires Unique(codes)
    ensures Unique(Listed(codes))
  {
    ListedAscends(codes);
    var listed := Listed(codes);
    forall i, j | 0 <= i < j < |listed| ensures listed[i] != listed[j] {
      assert Less(listed[i], listed[j]);
      LessIsStrict(listed[i], 0);
    }
  }

  // ---- The plan ----

  function Codes(languages: seq<(string, Delivery)>): seq<string> {
    seq(|languages|, i requires 0 <= i < |languages| => languages[i].0)
  }

  function Select(languages: seq<(string, Delivery)>, wanted: Delivery -> bool): seq<string> {
    if languages == [] then []
    else
      var n := |languages| - 1;
      Select(languages[..n], wanted) + if wanted(languages[n].1) then [languages[n].0] else []
  }

  function InterpreterLanguages(plan: Plan): seq<string> {
    Select(plan.languages, (d: Delivery) => d.Interpreter? || d.Both?)
  }

  function AiLanguages(plan: Plan): seq<string> { Select(plan.languages, (d: Delivery) => !d.Interpreter?) }

  function VoiceLanguages(plan: Plan): seq<string> { Select(plan.languages, (d: Delivery) => d.AiVoice?) }

  predicate UsesSpeech(plan: Plan) { plan.captions || AiLanguages(plan) != [] }

  function Find(engines: seq<Engine>, provider: string): Option<Engine> {
    if engines == [] then None
    else if engines[0].provider == provider then Some(engines[0])
    else Find(engines[1..], provider)
  }

  function AvailableOrFirst(engines: seq<Engine>, current: string): string {
    if current != "" && Find(engines, current).Some? then current
    else if engines != [] then engines[0].provider else ""
  }

  // ---- apply_plan ----

  /** The service after a plan named one: a model chosen elsewhere stays while the provider does. */
  function Chosen(service: Service, engine: Option<Engine>): Service {
    if engine.Some? && (engine.value.provider != service.provider || service.model == "")
    then Service(engine.value.provider, engine.value.model) else service
  }

  function Added(r: Stored, plan: Plan): seq<string> {
    Minus(InterpreterLanguages(plan), SetOf(r.booths))
  }

  /** Booths the plan does not want: the live ones stay, the others go. */
  function Unwanted(r: Stored, plan: Plan): seq<string> {
    Minus(Listed(r.booths), SetOf(InterpreterLanguages(plan)))
  }

  function Removed(r: Stored, plan: Plan, live: set<string>): seq<string> {
    Minus(Unwanted(r, plan), live)
  }

  function KeptLive(r: Stored, plan: Plan, live: set<string>): seq<string> {
    Minus(Unwanted(r, plan), SetOf(r.booths) - live)
  }

  function AiCodes(r: Stored, plan: Plan, live: set<string>): seq<string> {
    Minus(AiLanguages(plan), SetOf(KeptLive(r, plan, live)))
  }

  function SyncedRow(row: Row, codes: set<string>, voice: set<string>): Row {
    Row(row.code, row.code in codes, row.code in voice)
  }

  function RowCodes(rows: seq<Row>): seq<string> {
    seq(|rows|, i requires 0 <= i < |rows| => rows[i].code)
  }

  function NewRows(codes: seq<string>, voice: set<string>): seq<Row> {
    seq(|codes|, i requires 0 <= i < |codes| => Row(codes[i], true, codes[i] in voice))
  }

  function OldRows(rows: seq<Row>, codes: set<string>, voice: set<string>): seq<Row> {
    seq(|rows|, i requires 0 <= i < |rows| => SyncedRow(rows[i], codes, voice))
  }

  function SyncedRows(rows: seq<Row>, codes: seq<string>, voice: seq<string>): seq<Row> {
    OldRows(rows, SetOf(codes), SetOf(voice)) + NewRows(Minus(codes, SetOf(RowCodes(rows))), SetOf(voice))
  }

  function Applied(r: Stored, plan: Plan, catalog: Catalog, live: set<string>): Stored {
    var ai := AiCodes(r, plan, live);
    var ttsOn := ai != [] && VoiceLanguages(plan) != [];
    var voice := Find(catalog.voice, plan.voice);
    Stored(
      plan.name,
      plan.spoken,
      UsesSpeech(plan),
      if UsesSpeech(plan) then Chosen(r.speech, Find(catalog.speech, plan.speech)) else r.speech,
      ai != [],
      if ai != [] then Chosen(r.translation, Find(catalog.translation, plan.translation)) else r.translation,
      ttsOn,
      if ttsOn && voice.Some? then voice.value.provider else r.voice,
      Minus(r.booths, SetOf(Removed(r, plan, live))) + Added(r, plan),
      SyncedRows(r.rows, ai, VoiceLanguages(plan)))
  }

  // ---- load_snapshot ----

  /** The enabled rows that count, in order. */
  function AiRows(rows: seq<Row>): seq<Row> {
    if rows == [] then []
    else
      var n := |rows| - 1;
      AiRows(rows[..n]) + if rows[n].enabled then [rows[n]] else []
  }

  function LoadedRows(r: Stored): seq<Row> { if r.translationOn then AiRows(r.rows) else [] }

  function BoothLine(code: string, ai: set<string>): (string, Delivery) {
    (code, if code in ai then Both else Interpreter)
  }

  function BoothLines(booths: seq<string>, ai: set<string>): seq<(string, Delivery)> {
    seq(|booths|, i requires 0 <= i < |booths| => BoothLine(booths[i], ai))
  }

  function AiLines(rows: seq<Row>, booths: set<string>, ttsOn: bool): seq<(string, Delivery)> {
    if rows == [] then []
    else
      var n := |rows| - 1;
      AiLines(rows[..n], booths, ttsOn)
      + if rows[n].code in booths then [] else [(rows[n].code, if ttsOn && rows[n].tts then AiVoice else AiText)]
  }

  function Loaded(r: Stored, catalog: Catalog): Plan {
    var ai := LoadedRows(r);
    Plan(
      r.name,
      if r.spoken != "" then r.spoken else "en",
      BoothLines(Listed(r.booths), SetOf(RowCodes(ai))) + AiLines(ai, SetOf(r.booths), r.ttsOn),
      r.transcription,
      AvailableOrFirst(catalog.speech, r.speech.provider),
      AvailableOrFirst(catalog.translation, r.translation.provider),
      AvailableOrFirst(catalog.voice, r.voice))
  }

  /** The room's record, its booth rows and its translation rows. */
  class RoomRecord {
    var name: string
    var spoken: string
    var transcription: bool
    var speech: Service
    var translationOn: bool
    var translation: Service
    var ttsOn: bool
    var voice: string
    var booths: seq<string>
    var rows: seq<Row>

    constructor (s: Stored)
      ensures Value() == s
    {
      name, spoken, transcription, speech := s.name, s.spoken, s.transcription, s.speech;
      translationOn, translation, ttsOn, voice := s.translationOn, s.translation, s.ttsOn, s.voice;
      booths, rows := s.booths, s.rows;
    }

    ghost function Value(): Stored
      reads this
    {
      Stored(name, spoken, transcription, speech, translationOn, translation, ttsOn, voice, booths, rows)
    }

    /** The booths: those nobody wants or uses go, the missing ones are created. */
    method ChangeBooths(wanted: seq<string>, live: set<string>)
      returns (added: seq<string>, removed: seq<string>, keptLive: seq<string>)
      modifies this`booths
      ensures added == Minus(wanted, SetOf(old(booths)))
      ensures removed == Minus(Minus(Listed(old(booths)), SetOf(wanted)), live)
      ensures keptLive == Minus(Minus(Listed(old(booths)), SetOf(wanted)), SetOf(old(booths)) - live)
      ensures booths == Minus(old(booths), SetOf(removed)) + added
    {
      ListedMembers(booths);
      hide Minus, SetOf, Listed;
      var existing := Listed(booths);
      ghost var known := SetOf(booths);
      added := Minus(wanted, SetOf(booths));
      removed, keptLive := [], [];
      ghost var unwanted: seq<string> := [];
      NothingYet(existing, SetOf(wanted), live, known);
      MinusOfNone(booths);
      for i := 0 to |existing|
        invariant unwanted == Minus(existing[..i], SetOf(wanted))
        invariant removed == Minus(unwanted, live)
        invariant keptLive == Minus(unwanted, known - live)
        invariant booths == Minus(old(booths), SetOf(removed))
      {
        var code := existing[i];
        assert existing[..i + 1] == existing[..i] + [code];
        MinusOfAppended(existing[..i], code, SetOf(wanted));
        SetOfMembers(wanted, code);
        if code !in wanted {
          MinusOfAppended(unwanted, code, live);
          MinusOfAppended(unwanted, code, known - live);
          SetOfMembers(old(booths), code);
          unwanted := unwanted + [code];
          if code in live {
            keptLive := keptLive + [code];
          } else {
            MinusTwice(old(booths), SetOf(removed), {code});
            SetOfAppended(removed, code);
            booths := Minus(booths, {code});
            removed := removed + [code];
          }
        }
      }
      assert existing[..|existing|] == existing;
      booths := booths + added;
    }

    method SyncTranslationLanguages(codes: seq<string>, voiceCodes: seq<string>)
      modifies this`rows
      ensures rows == SyncedRows(old(rows), codes, voiceCodes)
    {
      hide Minus;
      var existing := rows;
      for i := 0 to |existing|
        invariant |rows| == |existing|
        invariant forall j :: 0 <= j < i ==> rows[j] == SyncedRow(existing[j], SetOf(codes), SetOf(voiceCodes))
        invariant forall j :: i <= j < |existing| ==> rows[j] == existing[j]
      {
        rows := rows[i := Row(existing[i].code, existing[i].code in codes, existing[i].code in voiceCodes)];
      }
      assert rows == OldRows(existing, SetOf(codes), SetOf(voiceCodes));
      ghost var updated := rows;
      var known := SetOf(RowCodes(existing));
      MinusNothing([], known);
      for i := 0 to |codes|
        invariant rows == updated + NewRows(Minus(codes[..i], known), SetOf(voiceCodes))
      {
        assert codes[..i + 1] == codes[..i] + [codes[i]];
        MinusOfAppended(codes[..i], codes[i], known);
        if codes[i] !in known { rows := rows + [Row(codes[i], true, codes[i] in voiceCodes)]; }
      }
      assert codes[..|codes|] == codes;
    }

    /** The plan the form opens with. */
    method LoadSnapshot(catalog: Catalog) returns (plan: Plan)
      ensures plan == Loaded(Value(), catalog)
    {
      hide AiRows, RowCodes, AvailableOrFirst, Listed;
      var aiRows := if translationOn then AiRows(rows) else [];
      var ai := SetOf(RowCodes(aiRows));
      var languages: seq<(string, Delivery)> := [];
      var codes := Listed(booths);
      for i := 0 to |codes|
        invariant languages == BoothLines(codes[..i], ai)
      {
        languages := languages + [(codes[i], if codes[i] in ai then Both else Interpreter)];
      }
      assert codes[..|codes|] == codes;
      ghost var lines := languages;
      for i := 0 to |aiRows|
        invariant languages == lines + AiLines(aiRows[..i], SetOf(booths), ttsOn)
      {
        assert aiRows[..i + 1][..i] == aiRows[..i];
        var row := aiRows[i];
        if row.code !in booths {
          languages := languages + [(row.code, if ttsOn && row.tts then AiVoice else AiText)];
        }
      }
      assert aiRows[..|aiRows|] == aiRows;
      plan := Plan(
        name, if spoken != "" then spoken else "en", languages, transcription,
        AvailableOrFirst(catalog.speech, speech.provider),
        AvailableOrFirst(catalog.translation, translation.provider),
        AvailableOrFirst(catalog.voice, voice));
    }

    method ApplyPlan(plan: Plan, catalog: Catalog, live: set<string>)
      returns (added: seq<string>, removed: seq<string>, keptLive: seq<string>)
      modifies this
      ensures Value() == Applied(old(Value()), plan, catalog, live)
      ensures added == Added(old(Value()), plan) && removed == Removed(old(Value()), plan, live)
      ensures keptLive == KeptLive(old(Value()), plan, live)
    {
      hide Minus, SetOf, Select, Find, Chosen, SyncedRows, UsesSpeech, Listed;
      hide InterpreterLanguages, AiLanguages, VoiceLanguages;
      name := plan.name;
      spoken := plan.spoken;
      added, removed, keptLive := ChangeBooths(InterpreterLanguages(plan), live);
      transcription := UsesSpeech(plan);
      if UsesSpeech(plan) { speech := Chosen(speech, Find(catalog.speech, plan.speech)); }
      var ai := Minus(AiLanguages(plan), SetOf(keptLive));
      translationOn := ai != [];
      if ai != [] { translation := Chosen(translation, Find(catalog.translation, plan.translation)); }
      SyncTranslationLanguages(ai, VoiceLanguages(plan));
      ttsOn := ai != [] && VoiceLanguages(plan) != [];
      if ttsOn {
        var engine := Find(catalog.voice, plan.voice);
        if engine.Some? { voice := engine.value.provider; }
      }
    }
  }

  // ---- What the lists hold ----

  lemma {:induction false} AiRowsMembers(rows: seq<Row>)
    ensures forall row :: row in AiRows(rows) <==> row in rows && row.enabled
  {
    if rows != [] {
      AiRowsMembers(rows[..|rows| - 1]);
      LastOf(rows);
    }
  }

  ghost predicate IsAiLine(line: (string, Delivery), row: Row, booths: set<string>, ttsOn: bool) {
    && row.code == line.0 && line.0 !in booths
    && line.1 == if ttsOn && row.tts then AiVoice else AiText
  }

  lemma {:induction false} AiLinesMembers(rows: seq<Row>, booths: set<string>, ttsOn: bool)
    ensures forall line :: line in AiLines(rows, booths, ttsOn) <==>
                             exists row :: row in rows && IsAiLine(line, row, booths, ttsOn)
  {
    if rows != [] {
      var n := |rows| - 1;
      AiLinesMembers(rows[..n], booths, ttsOn);
      LastOf(rows);
      forall line
        ensures line in AiLines(rows, booths, ttsOn) <==>
                  line in AiLines(rows[..n], booths, ttsOn) || IsAiLine(line, rows[n], booths, ttsOn)
      {
      }
      forall line, row | row in rows && IsAiLine(line, row, booths, ttsOn)
        ensures line in AiLines(rows, booths, ttsOn)
      {
        assert row in rows[..n] || row == rows[n];
      }
    }
  }

  lemma BoothLinesMembers(booths: seq<string>, ai: set<string>, line: (string, Delivery))
    ensures line in BoothLines(booths, ai) <==> line.0 in booths && line == BoothLine(line.0, ai)
  {
    if line.0 in booths {
      var i :| 0 <= i < |booths| && booths[i] == line.0;
      assert BoothLines(booths, ai)[i] == BoothLine(line.0, ai);
    }
  }

  /** After a sync exactly the wanted codes are enabled, and speech belongs to exactly the voice codes. */
  lemma SyncedRowsMembers(rows: seq<Row>, codes: seq<string>, voice: seq<string>)
    ensures forall row :: row in SyncedRows(rows, codes, voice) ==>
                            (row.enabled <==> row.code in codes) && (row.tts <==> row.code in voice)
    ensures forall c :: c in codes ==> Row(c, true, c in voice) in SyncedRows(rows, codes, voice)
  {
    var known := SetOf(RowCodes(rows));
    MinusMembers(codes, known);
    forall c | c in codes ensures Row(c, true, c in voice) in SyncedRows(rows, codes, voice) {
      if c in known {
        var i :| 0 <= i < |rows| && RowCodes(rows)[i] == c;
        assert OldRows(rows, SetOf(codes), SetOf(voice))[i] == Row(c, true, c in voice);
      } else {
        var i :| 0 <= i < |Minus(codes, known)| && Minus(codes, known)[i] == c;
        assert NewRows(Minus(codes, known), SetOf(voice))[i] == Row(c, true, c in voice);
      }
    }
  }

  lemma {:induction false} SelectMembers(languages: seq<(string, Delivery)>, wanted: Delivery -> bool)
    ensures forall c :: c in Select(languages, wanted) <==> exists d :: wanted(d) && (c, d) in languages
  {
    if languages != [] {
      SelectMembers(languages[..|languages| - 1], wanted);
      LastOf(languages);
    }
  }

  /** The delivery a plan gives a language it names once. */
  ghost predicate Delivers(plan: Plan, code: string, d: Delivery) { (code, d) in plan.languages }

  ghost predicate NamesOnce(plan: Plan) { Unique(Codes(plan.languages)) }

  lemma OneDelivery(plan: Plan, code: string, d: Delivery, e: Delivery)
    requires NamesOnce(plan) && Delivers(plan, code, d) && Delivers(plan, code, e)
    ensures d == e
  {
    var i :| 0 <= i < |plan.languages| && plan.languages[i] == (code, d);
    var j :| 0 <= j < |plan.languages| && plan.languages[j] == (code, e);
    assert Codes(plan.languages)[i] == Codes(plan.languages)[j];
  }

  lemma PlanLists(plan: Plan, code: string)
    ensures code in InterpreterLanguages(plan) <==> Delivers(plan, code, Interpreter) || Delivers(plan, code, Both)
    ensures code in AiLanguages(plan) <==>
              Delivers(plan, code, AiVoice) || Delivers(plan, code, AiText) || Delivers(plan, code, Both)
    ensures code in VoiceLanguages(plan) <==> Delivers(plan, code, AiVoice)
  {
    SelectMembers(plan.languages, (d: Delivery) => d.Interpreter? || d.Both?);
    SelectMembers(plan.languages, (d: Delivery) => !d.Interpreter?);
    SelectMembers(plan.languages, (d: Delivery) => d.AiVoice?);
  }

  // ---- The booths ----

  /** Afterwards a booth is there exactly if the plan wants it or somebody is using it. */
  lemma BoothsAfter(r: Stored, plan: Plan, catalog: Catalog, live: set<string>, code: string)
    ensures code in Applied(r, plan, catalog, live).booths <==>
              code in InterpreterLanguages(plan) || code in KeptLive(r, plan, live)
    ensures code in KeptLive(r, plan, live) <==> code in r.booths && code in live && code !in InterpreterLanguages(plan)
  {
    ListedMembers(r.booths);
    MinusMembers(Listed(r.booths), SetOf(InterpreterLanguages(plan)));
    MinusMembers(Unwanted(r, plan), live);
    MinusMembers(Unwanted(r, plan), SetOf(r.booths) - live);
    MinusMembers(r.booths, SetOf(Removed(r, plan, live)));
    MinusMembers(InterpreterLanguages(plan), SetOf(r.booths));
  }

  /** A live booth is never removed. */
  lemma LiveBoothsStay(r: Stored, plan: Plan, catalog: Catalog, live: set<string>, code: string)
    requires code in r.booths && code in live
    ensures code in Applied(r, plan, catalog, live).booths && code !in Removed(r, plan, live)
  {
    BoothsAfter(r, plan, catalog, live, code);
    MinusMembers(Unwanted(r, plan), live);
  }

  // ---- Round trip ----

  /** The translation rows that count afterwards. */
  lemma RowsAfter(r: Stored, plan: Plan, catalog: Catalog, live: set<string>, row: Row)
    ensures row in LoadedRows(Applied(r, plan, catalog, live)) <==>
              row.code in AiLanguages(plan) && row.code !in KeptLive(r, plan, live)
              && row == Row(row.code, true, row.code in VoiceLanguages(plan))
  {
    hide Minus, Select, KeptLive;
    var ai := AiCodes(r, plan, live);
    MinusMembers(AiLanguages(plan), SetOf(KeptLive(r, plan, live)));
    AiRowsMembers(SyncedRows(r.rows, ai, VoiceLanguages(plan)));
    SyncedRowsMembers(r.rows, ai, VoiceLanguages(plan));
    assert row.code in ai ==> ai != [];
  }

  lemma RowCodesMembers(rows: seq<Row>, code: string)
    ensures code in RowCodes(rows) <==> exists row :: row in rows && row.code == code
  {
    if code in RowCodes(rows) {
      var i :| 0 <= i < |rows| && RowCodes(rows)[i] == code;
      assert rows[i] in rows;
    }
    if row :| row in rows && row.code == code {
      var i :| 0 <= i < |rows| && rows[i] == row;
      assert RowCodes(rows)[i] == code;
    }
  }

  lemma AiCodesAfter(r: Stored, plan: Plan, catalog: Catalog, live: set<string>, code: string)
    ensures code in RowCodes(LoadedRows(Applied(r, plan, catalog, live))) <==>
              code in AiLanguages(plan) && code !in KeptLive(r, plan, live)
  {
    hide Applied, LoadedRows, RowCodes, AiLanguages, KeptLive;
    var rows := LoadedRows(Applied(r, plan, catalog, live));
    RowCodesMembers(rows, code);
    var row := Row(code, true, code in VoiceLanguages(plan));
    RowsAfter(r, plan, catalog, live, row);
    if other :| other in rows && other.code == code { RowsAfter(r, plan, catalog, live, other); }
  }

  lemma OnlyOne(plan: Plan, code: string)
    requires NamesOnce(plan)
    ensures forall d, e :: Delivers(plan, code, d) && Delivers(plan, code, e) ==> d == e
  {
    forall d, e | Delivers(plan, code, d) && Delivers(plan, code, e) ensures d == e { OneDelivery(plan, code, d, e); }
  }

  /** Speech is on whenever a voice language is left to the AI. */
  lemma TtsAfter(r: Stored, plan: Plan, catalog: Catalog, live: set<string>, code: string)
    ensures code in AiLanguages(plan) && code !in KeptLive(r, plan, live) && code in VoiceLanguages(plan) ==>
              Applied(r, plan, catalog, live).ttsOn
  {
    MinusMembers(AiLanguages(plan), SetOf(KeptLive(r, plan, live)));
  }

  lemma AiLineAfter(r: Stored, plan: Plan, catalog: Catalog, live: set<string>, code: string, d: Delivery)
    ensures var s := Applied(r, plan, catalog, live);
            (code, d) in AiLines(LoadedRows(s), SetOf(s.booths), s.ttsOn) <==>
              code !in s.booths && code in AiLanguages(plan) && code !in KeptLive(r, plan, live)
              && d == if code in VoiceLanguages(plan) then AiVoice else AiText
  {
    TtsAfter(r, plan, catalog, live, code);
    hide Applied, LoadedRows, KeptLive, AiLines, AiLanguages, VoiceLanguages;
    var s := Applied(r, plan, catalog, live);
    AiLinesMembers(LoadedRows(s), SetOf(s.booths), s.ttsOn);
    var row := Row(code, true, code in VoiceLanguages(plan));
    RowsAfter(r, plan, catalog, live, row);
    if other :| other in LoadedRows(s) && IsAiLine((code, d), other, SetOf(s.booths), s.ttsOn) {
      RowsAfter(r, plan, catalog, live, other);
    }
    if row in LoadedRows(s) && code !in s.booths {
      assert IsAiLine((code, if s.ttsOn && row.tts then AiVoice else AiText), row, SetOf(s.booths), s.ttsOn);
    }
  }

  /** The deliveries read back are the plan's, but Interpreter on every live booth the plan did not want. */
  lemma DeliveriesComeBack(r: Stored, plan: Plan, catalog: Catalog, live: set<string>, code: string, d: Delivery)
    requires NamesOnce(plan)
    ensures Delivers(Loaded(Applied(r, plan, catalog, live), catalog), code, d) <==>
              if code in KeptLive(r, plan, live) then d == Interpreter else Delivers(plan, code, d)
  {
    hide Applied, LoadedRows, KeptLive, AiLines, RowCodes, Select, BoothLines, Listed;
    hide InterpreterLanguages, AiLanguages, VoiceLanguages;
    var s := Applied(r, plan, catalog, live);
    var rows := LoadedRows(s);
    BoothsAfter(r, plan, catalog, live, code);
    AiCodesAfter(r, plan, catalog, live, code);
    PlanLists(plan, code);
    ListedMembers(s.booths);
    BoothLinesMembers(Listed(s.booths), SetOf(RowCodes(rows)), (code, d));
    AiLinesMembers(rows, SetOf(s.booths), s.ttsOn);
    OnlyOne(plan, code);
    AiLineAfter(r, plan, catalog, live, code, d);
  }

  /** Reading back what was applied: name, spoken language, captions and every delivery. Captions come back
      as planned if and only if the plan has them whenever it leaves a language to the AI, the spoken
      language if and only if it was named. */
  lemma RoundTrip(r: Stored, plan: Plan, catalog: Catalog, live: set<string>)
    requires NamesOnce(plan)
    ensures var back := Loaded(Applied(r, plan, catalog, live), catalog);
            && back.name == plan.name
            && (back.spoken == plan.spoken <==> plan.spoken != "")
            && (back.captions == plan.captions <==> plan.captions || AiLanguages(plan) == [])
            && forall code, d :: Delivers(back, code, d) <==>
                 if code in KeptLive(r, plan, live) then d == Interpreter else Delivers(plan, code, d)
  {
    hide Delivers, KeptLive, AiLanguages;
    forall code, d
      ensures Delivers(Loaded(Applied(r, plan, catalog, live), catalog), code, d) <==>
                if code in KeptLive(r, plan, live) then d == Interpreter else Delivers(plan, code, d)
    {
      DeliveriesComeBack(r, plan, catalog, live, code, d);
    }
  }

  /** The catalogue's entry of a provider is its first one; only for an unknown provider there is none. */
  lemma {:induction false} FindExactly(engines: seq<Engine>, provider: string)
    ensures match Find(engines, provider)
            case None => forall i :: 0 <= i < |engines| ==> engines[i].provider != provider
            case Some(e) => exists i :: 0 <= i < |engines| && engines[i] == e && e.provider == provider
                                        && forall j :: 0 <= j < i ==> engines[j].provider != provider
  {
    if engines != [] && engines[0].provider != provider {
      var rest := engines[1..];
      FindExactly(rest, provider);
      match Find(rest, provider) {
        case None =>
        case Some(e) =>
          var i :| 0 <= i < |rest| && rest[i] == e && e.provider == provider
                   && forall j :: 0 <= j < i ==> rest[j].provider != provider;
          assert engines[i + 1] == e;
          forall j | 0 <= j < i + 1 ensures engines[j].provider != provider {
            if j > 0 { assert engines[j] == rest[j - 1]; }
          }
      }
    }
  }

  /** What a form opens with: the stored provider if it is still offered, else the first one offered. */
  lemma OpensExactly(r: Stored, catalog: Catalog)
    ensures var plan := Loaded(r, catalog);
            && Opens(plan.speech, catalog.speech, r.speech.provider)
            && Opens(plan.translation, catalog.translation, r.translation.provider)
            && Opens(plan.voice, catalog.voice, r.voice)
    ensures !r.translationOn ==> forall k :: 0 <= k < |Loaded(r, catalog).languages| ==>
                                               Loaded(r, catalog).languages[k].1 == Interpreter
  {
    FindExactly(catalog.speech, r.speech.provider);
    FindExactly(catalog.translation, r.translation.provider);
    FindExactly(catalog.voice, r.voice);
    hide Find, Listed;
  }

  ghost predicate Opens(shown: string, engines: seq<Engine>, stored: string) {
    var offered := stored != "" && exists i :: 0 <= i < |engines| && engines[i].provider == stored;
    shown == if offered then stored else if engines == [] then "" else engines[0].provider
  }

  lemma {:induction false} SelectSome(languages: seq<(string, Delivery)>, f: Delivery -> bool)
    ensures Select(languages, f) != [] <==> exists k :: 0 <= k < |languages| && f(languages[k].1)
  {
    if languages != [] {
      var n := |languages| - 1;
      SelectSome(languages[..n], f);
      assert forall k :: 0 <= k < n ==> languages[..n][k] == languages[k];
      if Select(languages[..n], f) != [] {
        var k :| 0 <= k < n && f(languages[..n][k].1);
        assert f(languages[k].1);
      }
    }
  }

  /** Some language of the plan is delivered so. */
  ghost predicate Delivered(plan: Plan, f: Delivery -> bool) {
    exists k :: 0 <= k < |plan.languages| && f(plan.languages[k].1)
  }

  /** A service the plan has no use for keeps its engine. Captions are on exactly if they or an AI language are
      asked for, speech exactly if some AI language is left and some language is to be spoken. */
  lemma UnusedEnginesStay(r: Stored, plan: Plan, catalog: Catalog, live: set<string>)
    ensures var s := Applied(r, plan, catalog, live);
            && (!s.transcription ==> s.speech == r.speech)
            && (!s.translationOn ==> s.translation == r.translation)
            && (!s.ttsOn ==> s.voice == r.voice)
            && (s.transcription <==> plan.captions || Delivered(plan, (d: Delivery) => !d.Interpreter?))
            && (s.ttsOn <==> s.translationOn && Delivered(plan, (d: Delivery) => d.AiVoice?))
  {
    var ai, voice := (d: Delivery) => !d.Interpreter?, (d: Delivery) => d.AiVoice?;
    SelectSome(plan.languages, ai);
    SelectSome(plan.languages, voice);
    hide Select, Find, SyncedRows, Removed, Added, AiCodes, Chosen;
    assert AiLanguages(plan) == Select(plan.languages, ai) && VoiceLanguages(plan) == Select(plan.languages, voice);
    assert Delivered(plan, ai) == Delivered(plan, (d: Delivery) => !d.Interpreter?);
  }

  /** An engine the room uses comes back if the event offers it; a model chosen elsewhere for the same
      provider stays. */
  lemma EnginesComeBack(r: Stored, plan: Plan, catalog: Catalog, live: set<string>)
    ensures var s := Applied(r, plan, catalog, live);
            var back := Loaded(s, catalog);
            && (s.transcription && plan.speech != "" && Find(catalog.speech, plan.speech).Some? ==>
                  back.speech == plan.speech)
            && (s.translationOn && plan.translation != "" && Find(catalog.translation, plan.translation).Some? ==>
                  back.translation == plan.translation)
            && (s.ttsOn && plan.voice != "" && Find(catalog.voice, plan.voice).Some? ==> back.voice == plan.voice)
    ensures plan.speech == r.speech.provider && r.speech.model != "" ==>
              Applied(r, plan, catalog, live).speech == r.speech
    ensures plan.translation == r.translation.provider && r.translation.model != "" ==>
              Applied(r, plan, catalog, live).translation == r.translation
    ensures var s, offered := Applied(r, plan, catalog, live), Find(catalog.speech, plan.speech);
            s.transcription && offered.Some? && (plan.speech != r.speech.provider || r.speech.model == "") ==>
              s.speech == Service(plan.speech, offered.value.model)
    ensures var s, offered := Applied(r, plan, catalog, live), Find(catalog.translation, plan.translation);
            s.translationOn && offered.Some?
            && (plan.translation != r.translation.provider || r.translation.model == "") ==>
              s.translation == Service(plan.translation, offered.value.model)
  {
    FindExactly(catalog.speech, plan.speech);
    FindExactly(catalog.translation, plan.translation);
    FindExactly(catalog.voice, plan.voice);
    hide Find, SyncedRows, Removed, Added, AiCodes, Select, AiLanguages, VoiceLanguages;
  }

  // ---- Applying again ----

  lemma SecondTimeBooths(r: Stored, plan: Plan, catalog: Catalog, live: set<string>)
    ensures var s := Applied(r, plan, catalog, live);
            && Added(s, plan) == [] && Removed(s, plan, live) == []
            && SetOf(KeptLive(s, plan, live)) == SetOf(KeptLive(r, plan, live))
            && Minus(s.booths, SetOf([])) == s.booths
  {
    hide Applied, Minus, KeptLive, InterpreterLanguages;
    var s := Applied(r, plan, catalog, live);
    forall code
      ensures code in s.booths <==> code in InterpreterLanguages(plan) || code in KeptLive(r, plan, live)
      ensures code in KeptLive(r, plan, live) <==>
                code in r.booths && code in live && code !in InterpreterLanguages(plan)
      ensures code in KeptLive(s, plan, live) <==>
                code in s.booths && code in live && code !in InterpreterLanguages(plan)
    {
      BoothsAfter(r, plan, catalog, live, code);
      BoothsAfter(s, plan, catalog, live, code);
    }
    MinusEverything(InterpreterLanguages(plan), SetOf(s.booths));
    ListedMembers(s.booths);
    MinusMembers(Listed(s.booths), SetOf(InterpreterLanguages(plan)));
    MinusEverything(Unwanted(s, plan), live);
    MinusNothing(s.booths, SetOf([]));
  }

  lemma SecondTimeRows(rows: seq<Row>, codes: seq<string>, voice: seq<string>)
    ensures var once := SyncedRows(rows, codes, voice); SyncedRows(once, codes, voice) == once
  {
    hide Minus;
    var once := SyncedRows(rows, codes, voice);
    SyncedRowsMembers(rows, codes, voice);
    forall i | 0 <= i < |once| ensures SyncedRow(once[i], SetOf(codes), SetOf(voice)) == once[i] {
      assert once[i] in once;
    }
    assert OldRows(once, SetOf(codes), SetOf(voice)) == once;
    forall c | c in codes ensures c in SetOf(RowCodes(once)) { RowCodesMembers(once, c); }
    MinusEverything(codes, SetOf(RowCodes(once)));
  }

  /** Applying the same plan again adds, removes and changes nothing. */
  lemma ApplyingAgainIsIdle(r: Stored, plan: Plan, catalog: Catalog, live: set<string>)
    ensures var s := Applied(r, plan, catalog, live);
            && Added(s, plan) == [] && Removed(s, plan, live) == []
            && Applied(s, plan, catalog, live) == s
  {
    hide Minus, SyncedRows, Added, Removed, KeptLive, Select;
    var s := Applied(r, plan, catalog, live);
    SecondTimeBooths(r, plan, catalog, live);
    assert AiCodes(s, plan, live) == AiCodes(r, plan, live);
    SecondTimeRows(r.rows, AiCodes(r, plan, live), VoiceLanguages(plan));
    FindExactly(catalog.speech, plan.speech);
  }

  // ---- The plan a form opens with ----

  /** The rows of a stored room are one per language, as its two unique indexes demand. */
  ghost predicate Proper(r: Stored) { Unique(r.booths) && Unique(RowCodes(r.rows)) }

  lemma ConcatIsUnique<T>(a: seq<T>, b: seq<T>)
    requires Unique(a) && Unique(b) && forall x :: x in a ==> x !in b
    ensures Unique(a + b)
  {
    forall i, j | 0 <= i < j < |a + b| ensures (a + b)[i] != (a + b)[j] {
      if i < |a| <= j { assert a[i] in a && b[j - |a|] in b; }
    }
  }

  lemma {:induction false} SelectIsUnique(languages: seq<(string, Delivery)>, wanted: Delivery -> bool)
    requires Unique(Codes(languages))
    ensures Unique(Select(languages, wanted))
  {
    if languages != [] {
      var n := |languages| - 1;
      assert forall i :: 0 <= i < n ==> Codes(languages[..n])[i] == Codes(languages)[i];
      SelectIsUnique(languages[..n], wanted);
      SelectMembers(languages[..n], wanted);
      forall c | c in Select(languages[..n], wanted) ensures c != languages[n].0 {
        var d :| wanted(d) && (c, d) in languages[..n];
        var i :| 0 <= i < n && languages[i] == (c, d);
        assert Codes(languages)[i] != Codes(languages)[n];
      }
      if wanted(languages[n].1) { ConcatIsUnique(Select(languages[..n], wanted), [languages[n].0]); }
      else { assert Select(languages, wanted) == Select(languages[..n], wanted); }
    }
  }

  lemma AiCodesUnique(r: Stored, plan: Plan, live: set<string>)
    requires NamesOnce(plan)
    ensures Unique(AiCodes(r, plan, live))
  {
    SelectIsUnique(plan.languages, (d: Delivery) => !d.Interpreter?);
    MinusIsUnique(AiLanguages(plan), SetOf(KeptLive(r, plan, live)));
  }

  lemma SyncedIsUnique(rows: seq<Row>, codes: seq<string>, voice: seq<string>)
    requires Unique(RowCodes(rows)) && Unique(codes)
    ensures Unique(RowCodes(SyncedRows(rows, codes, voice)))
  {
    hide Minus;
    var known := SetOf(RowCodes(rows));
    MinusIsUnique(codes, known);
    MinusMembers(codes, known);
    ConcatIsUnique(RowCodes(rows), Minus(codes, known));
    assert RowCodes(SyncedRows(rows, codes, voice)) == RowCodes(rows) + Minus(codes, known);
  }

  /** A plan that names every language once leaves one booth and one row per language. */
  lemma AppliedIsProper(r: Stored, plan: Plan, catalog: Catalog, live: set<string>)
    requires Proper(r) && NamesOnce(plan)
    ensures Proper(Applied(r, plan, catalog, live))
  {
    hide Minus, Select, Removed, AiCodes, Chosen, Find;
    var removed := SetOf(Removed(r, plan, live));
    MinusIsUnique(r.booths, removed);
    MinusMembers(r.booths, removed);
    SelectIsUnique(plan.languages, (d: Delivery) => d.Interpreter? || d.Both?);
    MinusIsUnique(InterpreterLanguages(plan), SetOf(r.booths));
    MinusMembers(InterpreterLanguages(plan), SetOf(r.booths));
    ConcatIsUnique(Minus(r.booths, removed), Added(r, plan));
    AiCodesUnique(r, plan, live);
    SyncedIsUnique(r.rows, AiCodes(r, plan, live), VoiceLanguages(plan));
  }

  lemma {:induction false} AiRowsUnique(rows: seq<Row>)
    requires Unique(RowCodes(rows))
    ensures Unique(RowCodes(AiRows(rows)))
  {
    if rows != [] {
      var n := |rows| - 1;
      assert forall i :: 0 <= i < n ==> RowCodes(rows[..n])[i] == RowCodes(rows)[i];
      AiRowsUnique(rows[..n]);
      AiRowsMembers(rows[..n]);
      var kept := AiRows(rows[..n]);
      forall c | c in RowCodes(kept) ensures c != rows[n].code {
        RowCodesMembers(kept, c);
        var row :| row in kept && row.code == c;
        var i :| 0 <= i < n && rows[i] == row;
        assert RowCodes(rows)[i] != RowCodes(rows)[n];
      }
      if rows[n].enabled {
        ConcatIsUnique(RowCodes(kept), [rows[n].code]);
        assert RowCodes(AiRows(rows)) == RowCodes(kept) + [rows[n].code];
      } else {
        assert AiRows(rows) == kept;
      }
    }
  }

  lemma {:induction false} AiLinesUnique(rows: seq<Row>, booths: set<string>, ttsOn: bool)
    requires Unique(RowCodes(rows))
    ensures Unique(Codes(AiLines(rows, booths, ttsOn)))
    ensures forall c :: c in Codes(AiLines(rows, booths, ttsOn)) ==> c !in booths && c in RowCodes(rows)
  {
    if rows != [] {
      var n := |rows| - 1;
      assert forall i :: 0 <= i < n ==> RowCodes(rows[..n])[i] == RowCodes(rows)[i];
      AiLinesUnique(rows[..n], booths, ttsOn);
      var kept := AiLines(rows[..n], booths, ttsOn);
      assert RowCodes(rows) == RowCodes(rows[..n]) + [rows[n].code];
      if rows[n].code in booths {
        assert AiLines(rows, booths, ttsOn) == kept;
      } else {
        assert forall i :: 0 <= i < n ==> RowCodes(rows)[i] != RowCodes(rows)[n];
        ConcatIsUnique(Codes(kept), [rows[n].code]);
        assert Codes(AiLines(rows, booths, ttsOn)) == Codes(kept) + [rows[n].code];
      }
    }
  }

  lemma LoadedNamesOnce(r: Stored, catalog: Catalog)
    requires Proper(r)
    ensures NamesOnce(Loaded(r, catalog))
  {
    var rows := LoadedRows(r);
    AiRowsUnique(r.rows);
    AiLinesUnique(rows, SetOf(r.booths), r.ttsOn);
    ListedIsUnique(r.booths);
    ListedMembers(r.booths);
    hide Listed;
    var booths, lines := BoothLines(Listed(r.booths), SetOf(RowCodes(rows))), AiLines(rows, SetOf(r.booths), r.ttsOn);
    assert Codes(booths) == Listed(r.booths);
    ConcatIsUnique(Codes(booths), Codes(lines));
    assert Codes(booths + lines) == Codes(booths) + Codes(lines);
  }

  lemma AiLineIsOutside(rows: seq<Row>, booths: seq<string>, ttsOn: bool, k: nat)
    requires k < |AiLines(rows, SetOf(booths), ttsOn)|
    ensures AiLines(rows, SetOf(booths), ttsOn)[k].0 !in booths
  {
    AiLinesMembers(rows, SetOf(booths), ttsOn);
    var line := AiLines(rows, SetOf(booths), ttsOn)[k];
    assert line in AiLines(rows, SetOf(booths), ttsOn);
    SetOfMembers(booths, line.0);
  }

  /** A form opens with the booths first, by language code, then the languages left to the AI. */
  lemma FormIsOrdered(r: Stored, catalog: Catalog)
    requires Proper(r)
    ensures var languages := Loaded(r, catalog).languages;
            && |languages| >= |Listed(r.booths)| && Ascending(Listed(r.booths))
            && (forall k :: 0 <= k < |Listed(r.booths)| ==>
                              languages[k].0 == Listed(r.booths)[k] && languages[k].0 in r.booths)
            && (forall k :: |Listed(r.booths)| <= k < |languages| ==> languages[k].0 !in r.booths)
  {
    hide Listed, Ascending, AiLines;
    ListedAscends(r.booths);
    ListedMembers(r.booths);
    var rows, booths := LoadedRows(r), Listed(r.booths);
    var lines := AiLines(rows, SetOf(r.booths), r.ttsOn);
    forall k | 0 <= k < |lines| ensures lines[k].0 !in r.booths {
      AiLineIsOutside(rows, r.booths, r.ttsOn, k);
    }
    var languages := Loaded(r, catalog).languages;
    forall k | |booths| <= k < |languages| ensures languages[k].0 !in r.booths {
      assert languages[k] == lines[k - |booths|];
    }
    forall k | 0 <= k < |booths| ensures languages[k].0 == booths[k] && languages[k].0 in r.booths {
      assert booths[k] in booths;
    }
  }

  /** Applying the plan a room's form opens with changes no delivery, whichever booths are live. */
  lemma ReapplyingWhatIsThere(r: Stored, catalog: Catalog, live: set<string>, code: string, d: Delivery)
    requires Proper(r)
    ensures var plan := Loaded(r, catalog);
            Delivers(Loaded(Applied(r, plan, catalog, live), catalog), code, d) <==> Delivers(plan, code, d)
  {
    hide Applied, KeptLive, InterpreterLanguages, RowCodes, AiLines;
    var plan := Loaded(r, catalog);
    LoadedNamesOnce(r, catalog);
    DeliveriesComeBack(r, plan, catalog, live, code, d);
    BoothsAfter(r, plan, catalog, live, code);
    PlanLists(plan, code);
    var ai := SetOf(RowCodes(LoadedRows(r)));
    ListedMembers(r.booths);
    BoothLinesMembers(Listed(r.booths), ai, BoothLine(code, ai));
  }
}

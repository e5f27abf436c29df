// The chat frame codec (src/chat/frames.ts): the shapes the server validates,
// the seq a frame is given when it is logged, and the line it is stored as.
module ChatFrames {
  import opened Outcomes
  import opened JavaScript

  // ---- JSON ------------------------------------------------------------------

  datatype Json =
    | JNull
    | JBool(flag: bool)
    | JInt(n: int)
    | JFrac(r: real)
    | JStr(text: string)
    | JArr(items: seq<Json>)
    | JObj(fields: Fields)

  type Fields = map<string, Json>

  // The JSON text functions of the runtime. Text is one character per byte.
  datatype JsonText = JsonText(stringify: Json -> string, parse: string -> Option<Json>)

  // ---- Frames -----------------------------------------------------------------

  const MAX_ATTACHMENTS_PER_MESSAGE: nat := 8
  const MAX_ATTACHMENT_PATH_CHARS: nat := 1024
  const MAX_ATTACHMENT_NAME_CHARS: nat := 200

  datatype ChipKind = File | Image

  datatype Chip = Chip(path: string, name: string, kind: ChipKind)

  datatype Edge = Start | End

  // Control frames are only told apart here: they are never logged.
  datatype Frame =
    | Ack(clientMsgId: string, seqNo: nat)
    | Delta(text: string, seqNo: nat)
    | Tool(name: string, edge: Edge, seqNo: nat)
    | Turn(edge: Edge, seqNo: nat)
    | Notice(text: string, seqNo: nat)
    | User(text: string, clientMsgId: string, epoch: Option<nat>, attachments: Option<seq<Chip>>, seqNo: nat)
    | ErrorFrame(message: string, fatal: Option<bool>, maybeSeqNo: Option<nat>)
    | AuthOk(seqNo: nat)
    | Context
    | ControlResult
    | ContextEvent
    | Ping

  predicate Fatal(f: Frame) {
    f.ErrorFrame? && f.fatal == Some(true)
  }

  predicate LoggedKind(f: Frame) {
    !f.AuthOk? && !f.Context? && !f.ControlResult? && !f.ContextEvent? && !f.Ping?
  }

  function LoggedFrameSeq(f: Frame): nat
    requires LoggedKind(f)
  {
    if f.ErrorFrame? then (if f.maybeSeqNo.Some? then f.maybeSeqNo.value else 0) else f.seqNo
  }

  // A frame before its seq is assigned. `smuggled` is a fatal flag a caller put
  // on an error frame past the type that forbids it.
  datatype Unsequenced =
    | UAck(clientMsgId: string)
    | UDelta(text: string)
    | UTool(name: string, edge: Edge)
    | UTurn(edge: Edge)
    | UNotice(text: string)
    | UUser(text: string, clientMsgId: string, epoch: Option<nat>, attachments: Option<seq<Chip>>)
    | UError(message: string, smuggled: Option<bool>)

  function WithSeq(u: Unsequenced, n: nat): (f: Frame)
    ensures LoggedKind(f) && LoggedFrameSeq(f) == n
  {
    match u
    case UAck(id) => Ack(id, n)
    case UDelta(text) => Delta(text, n)
    case UTool(name, edge) => Tool(name, edge, n)
    case UTurn(edge) => Turn(edge, n)
    case UNotice(text) => Notice(text, n)
    case UUser(text, id, epoch, attachments) => User(text, id, epoch, attachments, n)
    case UError(message, smuggled) => ErrorFrame(message, smuggled, Some(n))
  }

  // ---- The object a logged frame is stored as ------------------------------------

  function EdgeName(edge: Edge): string {
    if edge.Start? then "start" else "end"
  }

  function KindName(kind: ChipKind): string {
    if kind.File? then "file" else "image"
  }

  function ChipObject(chip: Chip): Json {
    JObj(map["path" := JStr(chip.path), "name" := JStr(chip.name), "kind" := JStr(KindName(chip.kind))])
  }

  function ChipObjects(chips: seq<Chip>): seq<Json> {
    if |chips| == 0 then [] else [ChipObject(chips[0])] + ChipObjects(chips[1..])
  }

  function OptionalField(name: string, value: Option<Json>): Fields {
    if value.Some? then map[name := value.value] else map[]
  }

  function ObjectOf(f: Frame): Fields
    requires LoggedKind(f)
  {
    match f
    case Ack(id, n) => map["type" := JStr("ack"), "client_msg_id" := JStr(id), "seq" := JInt(n)]
    case Delta(text, n) => map["type" := JStr("delta"), "text" := JStr(text), "seq" := JInt(n)]
    case Tool(name, edge, n) =>
      map["type" := JStr("tool"), "name" := JStr(name), "state" := JStr(EdgeName(edge)), "seq" := JInt(n)]
    case Turn(edge, n) => map["type" := JStr("turn"), "state" := JStr(EdgeName(edge)), "seq" := JInt(n)]
    case Notice(text, n) => map["type" := JStr("notice"), "text" := JStr(text), "seq" := JInt(n)]
    case User(text, id, epoch, attachments, n) =>
      map["type" := JStr("user"), "text" := JStr(text), "client_msg_id" := JStr(id), "seq" := JInt(n)]
      + OptionalField("epoch", if epoch.Some? then Some(JInt(epoch.value)) else None)
      + OptionalField("attachments", if attachments.Some? then Some(JArr(ChipObjects(attachments.value))) else None)
    case ErrorFrame(message, fatal, n) =>
      map["type" := JStr("error"), "message" := JStr(message)]
      + OptionalField("fatal", if fatal.Some? then Some(JBool(fatal.value)) else None)
      + OptionalField("seq", if n.Some? then Some(JInt(n.value)) else None)
  }

  // ---- Validation ------------------------------------------------------------------

  function At(o: Fields, name: string): Option<Json> {
    if name in o then Some(o[name]) else None
  }

  predicate IsString(v: Option<Json>) {
    v.Some? && v.value.JStr?
  }

  predicate IsNonEmptyString(v: Option<Json>) {
    IsString(v) && |v.value.text| > 0
  }

  predicate IsSeq(v: Option<Json>) {
    v.Some? && v.value.JInt? && 0 <= v.value.n <= MAX_SAFE_INTEGER
  }

  predicate IsBoolean(v: Option<Json>) {
    v.Some? && v.value.JBool?
  }

  predicate IsEdge(v: Option<Json>) {
    v == Some(JStr("start")) || v == Some(JStr("end"))
  }

  function EdgeAt(o: Fields): Edge {
    if At(o, "state") == Some(JStr("start")) then Start else End
  }

  function StringAt(o: Fields, name: string): string
    requires IsString(At(o, name))
  {
    o[name].text
  }

  function SeqAt(o: Fields, name: string): nat
    requires IsSeq(At(o, name))
  {
    o[name].n
  }

  function OptionalSeqAt(o: Fields, name: string): Option<nat> {
    if IsSeq(At(o, name)) then Some(SeqAt(o, name)) else None
  }

  function NumberAt(o: Fields, name: string): Option<real> {
    match At(o, name)
    case Some(JInt(n)) => Some(n as real)
    case Some(JFrac(r)) => Some(r)
    case _ => None
  }

  predicate IsBlank(text: string) {
    forall i :: 0 <= i < |text| ==> IsSpace(text[i])
  }

  function ChipOf(entry: Json): Option<Chip> {
    if !entry.JObj? then None
    else
      var o := entry.fields;
      if !IsNonEmptyString(At(o, "path")) || |StringAt(o, "path")| > MAX_ATTACHMENT_PATH_CHARS then None
      else if !IsNonEmptyString(At(o, "name")) || |StringAt(o, "name")| > MAX_ATTACHMENT_NAME_CHARS then None
      else if At(o, "kind") == Some(JStr("file")) then Some(Chip(StringAt(o, "path"), StringAt(o, "name"), File))
      else if At(o, "kind") == Some(JStr("image")) then Some(Chip(StringAt(o, "path"), StringAt(o, "name"), Image))
      else None
  }

  // Every entry as a chip, or None when some entry is none.
  function ChipsOf(entries: seq<Json>): Option<seq<Chip>> {
    if |entries| == 0 then Some([])
    else
      var init, last := ChipsOf(entries[..|entries| - 1]), ChipOf(entries[|entries| - 1]);
      if init.None? || last.None? then None else Some(init.value + [last.value])
  }

  // None is malformed; Some(None) is absent.
  function AttachmentsOf(value: Option<Json>): Option<Option<seq<Chip>>> {
    if value.None? then Some(None)
    else if !value.value.JArr? || !(1 <= |value.value.items| <= MAX_ATTACHMENTS_PER_MESSAGE) then None
    else
      var chips := ChipsOf(value.value.items);
      if chips.None? then None else Some(Some(chips.value))
  }

  method ParseAttachments(value: Option<Json>) returns (r: Option<Option<seq<Chip>>>)
    ensures r == AttachmentsOf(value)
  {
    if value.None? {
      return Some(None);
    }
    if !value.value.JArr? || |value.value.items| == 0 || |value.value.items| > MAX_ATTACHMENTS_PER_MESSAGE {
      return None;
    }
    var items := value.value.items;
    var chips := [];
    for i := 0 to |items|
      invariant ChipsOf(items[..i]) == Some(chips)
    {
      assert items[..i + 1][..i] == items[..i];
      var chip := ChipOf(items[i]);
      if chip.None? {
        NoChipNoChips(items, i);
        return None;
      }
      chips := chips + [chip.value];
    }
    assert items[..|items|] == items;
    r := Some(Some(chips));
  }

  lemma {:induction false} NoChipNoChips(entries: seq<Json>, i: nat)
    requires i < |entries| && ChipOf(entries[i]).None?
    ensures ChipsOf(entries).None?
  {
    if i < |entries| - 1 {
      NoChipNoChips(entries[..|entries| - 1], i);
    }
  }

  predicate IsUsage(v: Option<Json>) {
    && v.Some?
    && (v.value.JNull?
        || (&& v.value.JObj?
            && var o := v.value.fields;
               var tokens, window, percent := NumberAt(o, "tokens"), NumberAt(o, "context_window"), NumberAt(o, "percent");
               && tokens.Some? && tokens.value >= 0.0
               && window.Some? && window.value > 0.0
               && percent.Some? && 0.0 <= percent.value <= 100.0))
  }

  predicate IsContext(o: Fields) {
    && IsSeq(At(o, "epoch")) && IsSeq(At(o, "replay_floor_seq"))
    && IsString(At(o, "state")) && StringAt(o, "state") in ["idle", "busy", "compacting", "resetting"]
    && IsBoolean(At(o, "compact_supported")) && IsBoolean(At(o, "session_active")) && IsBoolean(At(o, "writer"))
    && IsUsage(At(o, "usage"))
  }

  predicate IsAction(v: Option<Json>) {
    v == Some(JStr("compact")) || v == Some(JStr("new_chat"))
  }

  predicate IsOptionalText(v: Option<Json>) {
    v.None? || IsNonEmptyString(v)
  }

  predicate IsControlResult(o: Fields) {
    && IsAction(At(o, "action")) && IsNonEmptyString(At(o, "request_id"))
    && IsBoolean(At(o, "ok")) && IsSeq(At(o, "epoch"))
    && (At(o, "code").Some? ==>
          IsString(At(o, "code")) && StringAt(o, "code") in ["busy", "no_session", "unsupported", "read_only", "failed"])
    && (o["ok"].flag <==> At(o, "code").None?)
    && IsOptionalText(At(o, "message"))
  }

  predicate IsContextEvent(o: Fields) {
    IsAction(At(o, "action")) && IsBoolean(At(o, "ok")) && IsOptionalText(At(o, "message"))
  }

  function UserOf(o: Fields): Option<Frame> {
    if !IsString(At(o, "text")) || !IsNonEmptyString(At(o, "client_msg_id")) || !IsSeq(At(o, "seq")) then None
    else if At(o, "epoch").Some? && !IsSeq(At(o, "epoch")) then None
    else
      var attachments := AttachmentsOf(At(o, "attachments"));
      if attachments.None? then None
      else if IsBlank(StringAt(o, "text")) && attachments.value.None? then None
      else
        Some(User(StringAt(o, "text"), StringAt(o, "client_msg_id"), OptionalSeqAt(o, "epoch"), attachments.value,
                  SeqAt(o, "seq")))
  }

  function ErrorOf(o: Fields): Option<Frame> {
    if !IsNonEmptyString(At(o, "message")) then None
    else Some(ErrorFrame(StringAt(o, "message"), if IsBoolean(At(o, "fatal")) then Some(o["fatal"].flag) else None,
                         OptionalSeqAt(o, "seq")))
  }

  function FrameOf(o: Fields): Option<Frame> {
    match At(o, "type")
    case Some(JStr(kind)) => FrameOfKind(kind, o)
    case _ => None
  }

  function FrameOfKind(kind: string, o: Fields): Option<Frame> {
    if kind == "ping" then Some(Ping)
    else if kind == "auth_ok" then if IsSeq(At(o, "seq")) then Some(AuthOk(SeqAt(o, "seq"))) else None
    else if kind == "context" then if IsContext(o) then Some(Context) else None
    else if kind == "control_result" then if IsControlResult(o) then Some(ControlResult) else None
    else if kind == "context_event" then if IsContextEvent(o) then Some(ContextEvent) else None
    else if kind == "ack" then
      if IsNonEmptyString(At(o, "client_msg_id")) && IsSeq(At(o, "seq"))
      then Some(Ack(StringAt(o, "client_msg_id"), SeqAt(o, "seq"))) else None
    else if kind == "delta" then
      if IsString(At(o, "text")) && IsSeq(At(o, "seq")) then Some(Delta(StringAt(o, "text"), SeqAt(o, "seq"))) else None
    else if kind == "tool" then
      if IsNonEmptyString(At(o, "name")) && IsEdge(At(o, "state")) && IsSeq(At(o, "seq"))
      then Some(Tool(StringAt(o, "name"), EdgeAt(o), SeqAt(o, "seq"))) else None
    else if kind == "turn" then
      if IsEdge(At(o, "state")) && IsSeq(At(o, "seq")) then Some(Turn(EdgeAt(o), SeqAt(o, "seq"))) else None
    else if kind == "notice" then
      if IsNonEmptyString(At(o, "text")) && IsSeq(At(o, "seq"))
      then Some(Notice(StringAt(o, "text"), SeqAt(o, "seq"))) else None
    else if kind == "user" then UserOf(o)
    else if kind == "error" then ErrorOf(o)
    else None
  }

  // A raw string is parsed first; anything that is no record is malformed.
  function ParseServerFrame(json: JsonText, raw: Json): Option<Frame> {
    var value := if raw.JStr? then json.parse(raw.text) else Some(raw);
    match value
    case Some(JObj(o)) => FrameOf(o)
    case _ => None
  }

  // ---- The check an append makes -------------------------------------------------------

  predicate Accepted(u: Unsequenced, n: nat) {
    var check := FrameOf(ObjectOf(WithSeq(u, n)));
    check.Some? && !Fatal(check.value)
  }

  predicate ValidChip(chip: Chip) {
    0 < |chip.path| <= MAX_ATTACHMENT_PATH_CHARS && 0 < |chip.name| <= MAX_ATTACHMENT_NAME_CHARS
  }

  predicate ValidAttachments(attachments: Option<seq<Chip>>) {
    attachments.Some? ==>
      && 1 <= |attachments.value| <= MAX_ATTACHMENTS_PER_MESSAGE
      && forall i :: 0 <= i < |attachments.value| ==> ValidChip(attachments.value[i])
  }

  // What a caller has to supply for its frame to be logged.
  predicate Appendable(u: Unsequenced) {
    match u
    case UAck(id) => |id| > 0
    case UDelta(_) => true
    case UTool(name, _) => |name| > 0
    case UTurn(_) => true
    case UNotice(text) => |text| > 0
    case UUser(text, id, epoch, attachments) =>
      && |id| > 0 && (epoch.Some? ==> epoch.value <= MAX_SAFE_INTEGER)
      && ValidAttachments(attachments) && (IsBlank(text) ==> attachments.Some?)
    case UError(message, smuggled) => |message| > 0 && smuggled != Some(true)
  }

  lemma {:induction false} ChipsReadBack(chips: seq<Chip>)
    ensures |ChipObjects(chips)| == |chips|
    ensures forall i :: 0 <= i < |chips| ==> ChipObjects(chips)[i] == ChipObject(chips[i])
  {
    if |chips| > 0 {
      ChipsReadBack(chips[1..]);
    }
  }

  lemma ChipReadsBack(chip: Chip)
    ensures ChipOf(ChipObject(chip)) == if ValidChip(chip) then Some(chip) else None
  {
  }

  lemma {:induction false} ChipsOfObjects(entries: seq<Json>, chips: seq<Chip>)
    requires |entries| == |chips| && forall i :: 0 <= i < |chips| ==> entries[i] == ChipObject(chips[i])
    ensures ChipsOf(entries) == if forall i :: 0 <= i < |chips| ==> ValidChip(chips[i]) then Some(chips) else None
  {
    hide ChipOf, ChipObject, ValidChip;
    if |chips| > 0 {
      var last := |chips| - 1;
      ChipsOfObjects(entries[..last], chips[..last]);
      assert chips == chips[..last] + [chips[last]];
      ChipReadsBack(chips[last]);
    }
  }

  lemma AttachmentsReadBack(attachments: Option<seq<Chip>>)
    ensures AttachmentsOf(if attachments.Some? then Some(JArr(ChipObjects(attachments.value))) else None)
         == if ValidAttachments(attachments) then Some(attachments) else None
  {
    if attachments.Some? {
      ChipsReadBack(attachments.value);
      ChipsOfObjects(ChipObjects(attachments.value), attachments.value);
    }
  }

  lemma KindOfUser(o: Fields)
    ensures At(o, "type") == Some(JStr("user")) ==> FrameOf(o) == UserOf(o)
  {
    hide UserOf;
  }

  lemma UserReadsBack(u: Unsequenced, n: nat)
    requires u.UUser?
    ensures FrameOf(ObjectOf(WithSeq(u, n)))
         == if Appendable(u) && n <= MAX_SAFE_INTEGER then Some(WithSeq(u, n)) else None
  {
    hide AttachmentsOf, ChipObjects, IsBlank, ValidAttachments, FrameOf;
    AttachmentsReadBack(u.attachments);
    var o := ObjectOf(WithSeq(u, n));
    KindOfUser(o);
    assert At(o, "type") == Some(JStr("user"));
    assert At(o, "attachments") == if u.attachments.Some? then Some(JArr(ChipObjects(u.attachments.value))) else None;
    assert At(o, "epoch") == if u.epoch.Some? then Some(JInt(u.epoch.value)) else None;
  }

  lemma ErrorReadsBack(u: Unsequenced, n: nat)
    requires u.UError?
    ensures FrameOf(ObjectOf(WithSeq(u, n)))
         == if |u.message| == 0 then None
            else Some(ErrorFrame(u.message, u.smuggled, if n <= MAX_SAFE_INTEGER then Some(n) else None))
  {
    var o := ObjectOf(WithSeq(u, n));
    assert At(o, "type") == Some(JStr("error"));
    assert At(o, "seq") == Some(JInt(n));
    assert At(o, "fatal") == if u.smuggled.Some? then Some(JBool(u.smuggled.value)) else None;
  }

  lemma PlainReadsBack(u: Unsequenced, n: nat)
    requires !u.UUser? && !u.UError?
    ensures FrameOf(ObjectOf(WithSeq(u, n)))
         == if Appendable(u) && n <= MAX_SAFE_INTEGER then Some(WithSeq(u, n)) else None
  {
  }

  // A frame is accepted exactly when its fields are well formed, and reads back
  // as it was logged exactly when its seq is still a safe integer: an error
  // frame, whose seq is optional, is accepted past that point and loses its seq.
  lemma AcceptedFramesReadBack(u: Unsequenced, n: nat)
    ensures Accepted(u, n) <==> Appendable(u) && (n <= MAX_SAFE_INTEGER || u.UError?)
    ensures Accepted(u, n) ==> (FrameOf(ObjectOf(WithSeq(u, n))) == Some(WithSeq(u, n)) <==> n <= MAX_SAFE_INTEGER)
  {
    hide FrameOf, ObjectOf;
    if u.UUser? {
      UserReadsBack(u, n);
    } else if u.UError? {
      ErrorReadsBack(u, n);
    } else {
      PlainReadsBack(u, n);
    }
  }

  // ---- The line a logged frame is stored as ----------------------------------------------

  // A frame as the log holds it: it reads back from its own object.
  predicate Loggable(f: Frame) {
    LoggedKind(f) && !Fatal(f) && (f.ErrorFrame? ==> f.maybeSeqNo.Some?) && FrameOf(ObjectOf(f)) == Some(f)
  }

  lemma LoggableIsLogged(f: Frame)
    requires Loggable(f)
    ensures LoggedKind(f) && FrameOf(ObjectOf(f)) == Some(f)
  {
    hide FrameOf, ObjectOf;
  }

  function Line(json: JsonText, f: Frame): string
    requires LoggedKind(f)
  {
    json.stringify(JObj(ObjectOf(f)))
  }

  // What is left of a line by a write that stopped part-way.
  ghost predicate Torn(json: JsonText, torn: string) {
    '\n' !in torn && json.parse(torn).None?
  }

  // A frame's line is one line, reads back, and is torn until it is whole.
  ghost predicate LineHolds(json: JsonText, f: Frame)
    requires LoggedKind(f)
  {
    && '\n' !in Line(json, f) && json.parse(Line(json, f)) == Some(JObj(ObjectOf(f)))
    && forall k: nat :: k < |Line(json, f)| ==> json.parse(Line(json, f)[..k]).None?
  }

  // What the frame log relies on of the runtime's JSON text: nothing at all is
  // no JSON, and the line of every frame it can log holds.
  ghost predicate Sound(json: JsonText) {
    json.parse("").None? && forall f :: Loggable(f) ==> LineHolds(json, f)
  }

  lemma LinesReadBack(json: JsonText, f: Frame)
    requires Sound(json) && Loggable(f)
    ensures '\n' !in Line(json, f) && |Line(json, f)| > 0
    ensures json.parse(Line(json, f)) == Some(JObj(ObjectOf(f)))
    ensures ParseServerFrame(json, JObj(ObjectOf(f))) == Some(f)
    ensures forall k: nat :: k < |Line(json, f)| ==> Torn(json, Line(json, f)[..k])
  {
    hide FrameOf, ObjectOf, Line;
    assert LineHolds(json, f);
    forall k: nat | k < |Line(json, f)| ensures Torn(json, Line(json, f)[..k]) {
      assert forall c :: c in Line(json, f)[..k] ==> c in Line(json, f);
    }
  }
}

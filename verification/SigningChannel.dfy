/** Signing a command on the server and checking it on the agent
    (src/agents/signing.py, agent/internal/crypto/verify.go).

    Signatures are symbolic: `Signed(key, text)` is what the holder of a key makes of a text, and
    the check succeeds for exactly that key and text. Times are nanoseconds; reading RFC 3339 is
    the parameter `parse`; the rounding of numbers is part of the parameter `lib`. */
module SigningChannel {
  import opened Options
  import opened JsonSyntax
  import opened KeyOrder
  import opened Floats
  import opened CanonicalJson
  import opened NumberTexts
  import opened CanonicalMeaning
  import opened PrinterAgreement
  import opened CanonicalPrinter

  const SENSITIVE: set<string> := {
    "scan_command", "rule_update", "agent_upgrade", "nuclei_upgrade", "nuclei_templates_update",
    "scan_cancel", "config_update", "agent_shutdown", "response_action"
  }

  // SENSITIVE_TYPES of the console.
  predicate Signs(kind: string) {
    || kind == "scan_command" || kind == "rule_update" || kind == "agent_upgrade" || kind == "nuclei_upgrade"
    || kind == "nuclei_templates_update" || kind == "scan_cancel" || kind == "config_update"
    || kind == "response_action" || kind == "agent_shutdown"
  }

  /** The console signs exactly the kinds for which the agent demands a signature. */
  lemma SameKinds(kind: string)
    ensures Signs(kind) <==> kind in SENSITIVE
  {
  }

  const MAX_SKEW: int := 15 * 60 * 1_000_000_000

  datatype Signature = Signed(key: nat, text: string) | Junk(id: nat)

  // The sig field as it arrives.
  datatype WireSig = Absent | NotBase64 | Carried(sig: Signature)

  datatype Verdict =
    | NotSensitive | Accepted | MissingSignature | BadTimestamp | OutsideWindow
    | NoPublicKey | BadEncoding | BadPayload | BadSignature

  datatype Agent = Agent(key: Option<nat>, now: int, parse: string -> Option<int>, lib: Lib)

  function Frame(kind: string, ts: string, payload: string): string { kind + ("|" + (ts + ("|" + payload))) }

  function ServerText(kind: string, ts: string, q: Py, lib: Lib): string { Frame(kind, ts, SignedText(q, lib)) }

  // json.Unmarshal into a map[string]interface{}: null leaves the map nil, which prints as {}.
  function PayloadObject(wire: string, lib: Lib): (r: Option<Json>)
    ensures r.Some? ==> r.value.Obj?
  {
    match Unmarshal(wire, lib)
    case Some(Obj(fields)) => Some(Obj(fields))
    case Some(Null) => Some(Obj(map[]))
    case _ => None
  }

  ghost function Check(kind: string, ts: string, wire: string, sig: WireSig, agent: Agent): Verdict {
    if kind !in SENSITIVE then NotSensitive
    else if sig.Absent? then MissingSignature
    else if agent.parse(ts).None? then BadTimestamp
    else if !(-MAX_SKEW <= agent.now - agent.parse(ts).value <= MAX_SKEW) then OutsideWindow
    else if agent.key.None? then NoPublicKey
    else if sig.NotBase64? then BadEncoding
    else if PayloadObject(wire, agent.lib).None? then BadPayload
    else if sig.sig == Signed(agent.key.value,
      Frame(kind, ts, CanonicalText(PayloadObject(wire, agent.lib).value, agent.lib)))
    then Accepted
    else BadSignature
  }

  method Verify(kind: string, ts: string, wire: string, sig: WireSig, agent: Agent) returns (v: Verdict)
    ensures v == Check(kind, ts, wire, sig, agent)
  {
    if kind !in SENSITIVE { return NotSensitive; }
    if sig.Absent? { return MissingSignature; }
    var at := agent.parse(ts);
    if at.None? { return BadTimestamp; }
    var skew := agent.now - at.value;
    if skew < -MAX_SKEW || skew > MAX_SKEW { return OutsideWindow; }
    if agent.key.None? { return NoPublicKey; }
    if sig.NotBase64? { return BadEncoding; }
    var payload := PayloadObject(wire, agent.lib);
    if payload.None? { return BadPayload; }
    var canonical := AppendCanonical("", payload.value, agent.lib);
    assert "" + CanonicalText(payload.value, agent.lib) == CanonicalText(payload.value, agent.lib);
    v := if sig.sig == Signed(agent.key.value, Frame(kind, ts, canonical)) then Accepted else BadSignature;
  }

  // No time, or one more than 15 minutes away, in nanoseconds.
  predicate Bad(ts: string, agent: Agent) {
    agent.parse(ts).Some? ==>
      var skew := agent.now - agent.parse(ts).value;
      skew < -900_000_000_000 || 900_000_000_000 < skew
  }

  /** The payload of a message is a JSON object; null counts as an empty one. */
  lemma PayloadExactly(wire: string, lib: Lib, fields: map<string, Json>)
    ensures PayloadObject(wire, lib) == Some(Obj(fields)) <==>
      Unmarshal(wire, lib) == Some(Obj(fields)) || (Unmarshal(wire, lib) == Some(Null) && fields == map[])
  {
  }

  /** A message of another kind passes unread. One of these kinds is accepted exactly if it carries a
      signature by the configured key of its kind, its time stamp, which is within the window, and the
      agent's text of its payload, which is an object or null; what is missing is reported. */
  lemma VerdictExactly(kind: string, ts: string, wire: string, sig: WireSig, agent: Agent)
    ensures var v := Check(kind, ts, wire, sig, agent);
      && (v == NotSensitive <==> !Signs(kind))
      && (v == MissingSignature <==> Signs(kind) && sig.Absent?)
      && (v in {BadTimestamp, OutsideWindow} <==> Signs(kind) && !sig.Absent? && Bad(ts, agent))
      && (v == Accepted ==> PayloadObject(wire, agent.lib).Some?)
      && (v == Accepted <==>
            && Signs(kind) && !Bad(ts, agent) && agent.key.Some? && PayloadObject(wire, agent.lib).Some?
            && var text := CanonicalText(PayloadObject(wire, agent.lib).value, agent.lib);
            sig == Carried(Signed(agent.key.value, kind + "|" + ts + "|" + text)))
  {
    SameKinds(kind);
    if PayloadObject(wire, agent.lib).Some? {
      FrameText(kind, ts, CanonicalText(PayloadObject(wire, agent.lib).value, agent.lib));
    }
  }

  lemma FrameText(kind: string, ts: string, text: string)
    ensures Frame(kind, ts, text) == kind + "|" + ts + "|" + text
  {
  }

  // verify_message; no key if the hex text of the key is malformed.
  function ServerCheck(kind: string, ts: string, q: Py, sig: WireSig, key: Option<nat>, lib: Lib): bool {
    !Signs(kind) || (sig.Carried? && key.Some? && sig.sig == Signed(key.value, ServerText(kind, ts, q, lib)))
  }

  /** A message dict on its way out. */
  class Outgoing {
    var kind: string
    var ts: Option<string>
    var payload: Option<Py>
    var sig: WireSig

    constructor (kind: string, ts: Option<string>, payload: Option<Py>)
      ensures this.kind == kind && this.ts == ts && this.payload == payload && sig == Absent
    {
      this.kind, this.ts, this.payload, sig := kind, ts, payload, Absent;
    }

    // The time and payload that go into the signed text.
    function Stamp(now: string): string reads this { if ts.Some? then ts.value else now }

    function Body(): Py reads this { if payload.Some? then payload.value else PDict([], map[]) }

    predicate VerifiedBy(key: Option<nat>, lib: Lib) reads this {
      ServerCheck(kind, if ts.Some? then ts.value else "", Body(), sig, key, lib)
    }

    /** sign_message: only a sensitive message is signed, and only when the key is configured. What
        it signs is verified by that key and no other. */
    method Sign(key: Option<nat>, now: string, lib: Lib)
      modifies this`ts, this`sig
      ensures kind in SENSITIVE && key.Some? ==>
        && ts == Some(old(Stamp(now)))
        && sig == Carried(Signed(key.value, ServerText(kind, ts.value, Body(), lib)))
        && forall k :: VerifiedBy(k, lib) <==> k == key
      ensures !(kind in SENSITIVE && key.Some?) ==> ts == old(ts) && sig == old(sig)
    {
      SameKinds(kind);
      if !Signs(kind) || key.None? { return; }
      var stamp := Stamp(now);
      sig := Carried(Signed(key.value, ServerText(kind, stamp, Body(), lib)));
      if ts.None? { ts := Some(stamp); }
    }
  }

  // ----- What the agent accepts -----

  predicate Fresh(ts: string, agent: Agent) {
    agent.parse(ts).Some? && -MAX_SKEW <= agent.now - agent.parse(ts).value <= MAX_SKEW
  }

  /** A signed server message, decoded from any rendering of its payload, is accepted exactly when
      it is fresh, the keys match and the payload is portable. */
  lemma ServerMessageAccepted(kind: string, ts: string, q: Py, key: nat, wire: string, agent: Agent)
    requires kind in SENSITIVE && q.PDict? && DictsOk(q) && Faithful(agent.lib)
    requires Unmarshal(wire, agent.lib) == Some(Decoded(q, agent.lib))
    ensures Check(kind, ts, wire, Carried(Signed(key, ServerText(kind, ts, q, agent.lib))), agent) == Accepted
      <==>
      Fresh(ts, agent) && agent.key == Some(key) && Portable(q, agent.lib)
  {
    PrintersAgree(q, agent.lib);
    var a, b := SignedText(q, agent.lib), CanonicalText(Decoded(q, agent.lib), agent.lib);
    if Frame(kind, ts, a) == Frame(kind, ts, b) {
      FrameTail(kind, ts, a, b);
    }
  }

  lemma FrameTail(kind: string, ts: string, a: string, b: string)
    requires Frame(kind, ts, a) == Frame(kind, ts, b)
    ensures a == b
  {
    TailEqual(kind, "|" + (ts + ("|" + a)), "|" + (ts + ("|" + b)));
    TailEqual("|", ts + ("|" + a), ts + ("|" + b));
    TailEqual(ts, "|" + a, "|" + b);
    TailEqual("|", a, b);
  }

  lemma TailEqual(p: string, a: string, b: string)
    requires p + a == p + b
    ensures a == b
  {
    assert a == (p + a)[|p|..] && b == (p + b)[|p|..];
  }

  /** The server's own wire texts, in any style, qualify as renderings of the payload, unless it holds
      an integer beyond the range of a float64; then the agent cannot decode them. */
  lemma WireDecodes(q: Py, style: Style, lib: Lib)
    requires DictsOk(q) && StyleOk(style) && Faithful(lib)
    ensures Unmarshal(Render(PyDoc(q, style, lib)), lib) == if InRange(q, lib) then Some(Decoded(q, lib)) else None
  {
    StyleValue(q, style, lib);
    UnmarshalRender("", PyDoc(q, style, lib), "", lib);
    assert "" + Render(PyDoc(q, style, lib)) == Render(PyDoc(q, style, lib));
  }

  // ----- Whatever is accepted was signed -----

  datatype Command = Command(kind: string, ts: string, payload: Py)

  // The commands a key has signed; time stamps are RFC 3339 texts, so they hold no bar.
  ghost predicate LogOk(log: set<Command>) {
    forall c | c in log :: c.kind in SENSITIVE && '|' !in c.ts && DictsOk(c.payload)
  }

  // Nobody but the signer makes signatures of this key.
  ghost predicate Unforged(sig: WireSig, key: nat, log: set<Command>, lib: Lib) {
    sig.Carried? && sig.sig.Signed? && sig.sig.key == key ==>
      exists c :: c in log && sig.sig.text == ServerText(c.kind, c.ts, c.payload, lib)
  }

  lemma NoBarInKinds(kind: string)
    requires kind in SENSITIVE
    ensures '|' !in kind
  {
  }

  lemma SplitAtBar(a: string, b: string, c: string, d: string)
    requires '|' !in a && '|' !in c && a + ("|" + b) == c + ("|" + d)
    ensures a == c && b == d
  {
    var t := a + ("|" + b);
    assert t[|a|] == '|' && t[|c|] == '|';
    assert forall i | 0 <= i < |a| :: t[i] == a[i] && t[i] in a;
    assert forall i | 0 <= i < |c| :: t[i] == c[i] && t[i] in c;
    assert |a| == |c|;
    assert t[..|a|] == a && t[..|c|] == c;
    assert t[|a| + 1..] == b && t[|c| + 1..] == d;
  }

  /** The framed text determines the kind, the time stamp and the text of the payload. */
  lemma FrameInjective(kind: string, ts: string, a: string, kind': string, ts': string, a': string)
    requires '|' !in kind && '|' !in kind' && '|' !in ts && '|' !in ts'
    requires Frame(kind, ts, a) == Frame(kind', ts', a')
    ensures kind == kind' && ts == ts' && a == a'
  {
    SplitAtBar(kind, ts + ("|" + a), kind', ts' + ("|" + a'));
    SplitAtBar(ts, a, ts', a');
  }

  /** verify_message accepts another message under the signature of this one exactly when the key, the
      kind and the time stamp are the same and the payloads have one sorted rendering; they are then
      the same value. */
  lemma ServerCheckExact(kind: string, ts: string, q: Py, kind': string, ts': string, q': Py,
                         key: nat, key': Option<nat>, lib: Lib)
    requires kind in SENSITIVE && kind' in SENSITIVE && '|' !in ts && '|' !in ts' && DictsOk(q) && DictsOk(q')
    requires Faithful(lib)
    ensures var verified := ServerCheck(kind', ts', q', Carried(Signed(key, ServerText(kind, ts, q, lib))), key', lib);
      && (verified <==>
            key' == Some(key) && kind' == kind && ts' == ts && PyDoc(q', SIGNED, lib) == PyDoc(q, SIGNED, lib))
      && (verified ==> Decoded(q', lib) == Decoded(q, lib))
  {
    NoBarInKinds(kind);
    NoBarInKinds(kind');
    SameKinds(kind');
    StyleValue(q, SIGNED, lib);
    StyleValue(q', SIGNED, lib);
    if ServerText(kind, ts, q, lib) == ServerText(kind', ts', q', lib) {
      FrameInjective(kind, ts, SignedText(q, lib), kind', ts', SignedText(q', lib));
      RenderInjective(PyDoc(q, SIGNED, lib), PyDoc(q', SIGNED, lib), true);
    }
  }

  /** Whatever the agent accepts, its key's holder signed: same kind, same time stamp, same payload. */
  lemma AcceptedWasSigned(kind: string, ts: string, wire: string, sig: WireSig, agent: Agent, log: set<Command>)
    requires Check(kind, ts, wire, sig, agent) == Accepted && Faithful(agent.lib)
    requires forall s :: agent.parse(s).Some? ==> '|' !in s
    requires LogOk(log) && Unforged(sig, agent.key.value, log, agent.lib)
    ensures exists c :: c in log && c.kind == kind && c.ts == ts &&
                        PayloadObject(wire, agent.lib) == Some(Decoded(c.payload, agent.lib))
  {
    var v := PayloadObject(wire, agent.lib).value;
    var c :| c in log && sig.sig.text == ServerText(c.kind, c.ts, c.payload, agent.lib);
    NoBarInKinds(kind);
    NoBarInKinds(c.kind);
    FrameInjective(kind, ts, CanonicalText(v, agent.lib), c.kind, c.ts, SignedText(c.payload, agent.lib));
    CrossInjective(v, c.payload, agent.lib);
  }

  // ----- What becomes of the console's own messages -----

  // The verdict on a message that the console has signed and sent.
  ghost function Sent(kind: string, ts: string, q: Py, key: nat, agent: Agent): Verdict {
    Check(kind, ts, Render(PyDoc(q, COMPACT, agent.lib)), Carried(Signed(key, ServerText(kind, ts, q, agent.lib))),
      agent)
  }

  lemma {:induction false} PortableInRange(q: Py, lib: Lib)
    requires Portable(q, lib) && Faithful(lib)
    ensures InRange(q, lib)
  {
    match q {
      case PInt(n) =>
        MaxRoundsUp(lib.nearest);
        if IsFloat(n as real) { FloatsAreExact(n as real, lib.nearest); }
      case PList(items) =>
        forall i | 0 <= i < |items| ensures InRange(items[i], lib) { PortableInRange(items[i], lib); }
      case PDict(_, fields) =>
        forall k | k in fields ensures InRange(fields[k], lib) { PortableInRange(fields[k], lib); }
      case _ =>
    }
  }

  /** The console's own message is accepted exactly when it is fresh, the keys match and the payload is
      portable. */
  lemma SentAccepted(kind: string, ts: string, q: Py, key: nat, agent: Agent)
    requires kind in SENSITIVE && q.PDict? && DictsOk(q) && Faithful(agent.lib)
    ensures Sent(kind, ts, q, key, agent) == Accepted
      <==> Fresh(ts, agent) && agent.key == Some(key) && Portable(q, agent.lib)
  {
    WireDecodes(q, COMPACT, agent.lib);
    if InRange(q, agent.lib) {
      ServerMessageAccepted(kind, ts, q, key, Render(PyDoc(q, COMPACT, agent.lib)), agent);
    } else if Portable(q, agent.lib) {
      PortableInRange(q, agent.lib);
    }
  }

  /** Without floats, without integers beyond 2^53 and with portable strings, every fresh message under
      the right key is accepted. */
  lemma PlainAccepted(kind: string, ts: string, q: Py, key: nat, agent: Agent)
    requires kind in SENSITIVE && q.PDict? && DictsOk(q) && Faithful(agent.lib) && Plain(q, agent.lib)
    ensures Sent(kind, ts, q, key, agent) == Accepted <==> Fresh(ts, agent) && agent.key == Some(key)
  {
    PlainPortable(q, agent.lib);
    SentAccepted(kind, ts, q, key, agent);
  }

  // ----- A claim of the source that does not hold -----

  // The payload {k: v}.
  function OneKey(k: string, v: Py): Py { PDict([k], map[k := v]) }

  lemma OneKeyOk(k: string, v: Py)
    requires DictsOk(v)
    ensures DictsOk(OneKey(k, v))
  {
    assert [k][0] == k;
    assert Elements([k]) == {k};
  }

  lemma OneKeyPortable(k: string, v: Py, lib: Lib)
    ensures Portable(OneKey(k, v), lib) <==> PortableString(k, lib) && Portable(v, lib)
  {
    var fields := map[k := v];
    assert fields[k] == v;
  }

  /** A command with a float is accepted, however fresh, only if the float is portable. */
  lemma FloatAccepted(k: string, x: Float, kind: string, ts: string, key: nat, agent: Agent)
    requires kind in SENSITIVE && Faithful(agent.lib)
    ensures Sent(kind, ts, OneKey(k, PFloat(x)), key, agent) == Accepted
      <==> Fresh(ts, agent) && agent.key == Some(key) && PortableString(k, agent.lib) && FloatPortable(x, agent.lib)
  {
    OneKeyOk(k, PFloat(x));
    OneKeyPortable(k, PFloat(x), agent.lib);
    SentAccepted(kind, ts, OneKey(k, PFloat(x)), key, agent);
  }

  lemma OneKeyDecoded(k: string, v: Py, lib: Lib)
    ensures Decoded(OneKey(k, v), lib) == Obj(map[k := Decoded(v, lib)])
  {
  }

  // The texts are one text if x is what the agent reads for n and prints back as n.
  lemma SameTextOfNumbers(k: string, x: Float, n: int, lib: Lib)
    requires Faithful(lib) && PortableString(k, lib)
    ensures CanonicalText(Decoded(OneKey(k, PFloat(x)), lib), lib) == SignedText(OneKey(k, PInt(n)), lib)
      <==> IntPortable(n, lib) && Rounded(n as real, lib) == x
  {
    OneKeyOk(k, PInt(n));
    OneKeyDecoded(k, PFloat(x), lib);
    OneKeyDecoded(k, PInt(n), lib);
    OneKeyPortable(k, PInt(n), lib);
    PrintersAgree(OneKey(k, PInt(n)), lib);
    if CanonicalText(Decoded(OneKey(k, PFloat(x)), lib), lib) == SignedText(OneKey(k, PInt(n)), lib) {
      CrossInjective(Decoded(OneKey(k, PFloat(x)), lib), OneKey(k, PInt(n)), lib);
      OneField(k, Num(x), Num(Rounded(n as real, lib)));
    }
  }

  lemma OneField(k: string, v: Json, w: Json)
    requires map[k := v] == map[k := w]
    ensures v == w
  {
    assert map[k := v][k] == map[k := w][k];
  }

  /** The agent's text for {k: x} is what the console signs for {k: n} if and only if x is printed as an
      integer and n is that integer; verify.go:126-127 says that 1.0 and 1 stay distinct. */
  lemma FloatsCollapse(k: string, x: Float, n: int, lib: Lib)
    requires Faithful(lib) && PortableString(k, lib)
    ensures CanonicalText(Decoded(OneKey(k, PFloat(x)), lib), lib) == SignedText(OneKey(k, PInt(n)), lib)
      <==> PrintedAsInteger(x, lib) && Int64Of(x, lib) == n
  {
    SameTextOfNumbers(k, x, n, lib);
    ReadAndPrinted(x, n, lib);
  }

  /** So for every integral float of 64 bits: its command is signed and then refused. */
  lemma IntegralFloatRefused(k: string, n: int, kind: string, ts: string, key: nat, agent: Agent)
    requires kind in SENSITIVE && Faithful(agent.lib) && PortableString(k, agent.lib)
    requires IsFloat(n as real) && InInt64(n)
    ensures CanonicalText(Decoded(OneKey(k, PFloat(n as real)), agent.lib), agent.lib)
         == SignedText(OneKey(k, PInt(n)), agent.lib)
    ensures Sent(kind, ts, OneKey(k, PFloat(n as real)), key, agent) != Accepted
  {
    WholeConverted(n as real, n, agent.lib);
    FloatsCollapse(k, n as real, n, agent.lib);
    FloatAccepted(k, n as real, kind, ts, key, agent);
  }
}

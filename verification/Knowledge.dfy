/**
 Knowledge documents, who writes them, and whom they may be trusted by: the rules that keep an agent's own account
 of a run from becoming established fact.
 */
module Knowledge {
  import opened Wrappers

  datatype Kind = Postmortem | Runbook | Service | Pattern | Run

  function KindValue(kind: Kind): string {
    match kind
    case Postmortem => "postmortem"
    case Runbook => "runbook"
    case Service => "service"
    case Pattern => "pattern"
    case Run => "run"
  }

  datatype Document = Document(
    id: string, kind: Kind, title: string, body: string, service: Option<string>, threadId: Option<string>,
    verified: bool, createdAt: int, metadata: map<string, string>)

  /** The text that is hashed; the digest is taken to be injective, so the text stands for it. */
  function MakeId(kind: Kind, title: string, body: string): string {
    KindValue(kind) + ":" + title + ":" + body
  }

  function NewDocument(kind: Kind, title: string, body: string, service: Option<string>, threadId: Option<string>,
                       verified: bool, createdAt: int, metadata: map<string, string>): Document {
    Document(MakeId(kind, title, body), kind, title, body, service, threadId, verified, createdAt, metadata)
  }

  /** An id tells the kind of its document: no kind's name, up to the colon, begins another's. */
  lemma IdDeterminesKind(k: Kind, l: Kind, title: string, body: string, title': string, body': string)
    requires MakeId(k, title, body) == MakeId(l, title', body')
    ensures k == l
  {
    var id := MakeId(k, title, body);
    assert id[0] == KindValue(k)[0] == KindValue(l)[0];
    assert id[1] == KindValue(k)[1] == KindValue(l)[1];
    assert id[3] == (KindValue(k) + ":")[3] == (KindValue(l) + ":")[3];
  }

  /** It does not tell the text: a colon in a title moves the boundary, and the two documents share one row. */
  lemma IdDoesNotDetermineText()
    ensures MakeId(Postmortem, "disk", "full: api") == MakeId(Postmortem, "disk:full", " api")
    ensures var t := Upsert(map[], NewDocument(Postmortem, "disk", "full: api", None, None, true, 0, map[]));
      |Upsert(t, NewDocument(Postmortem, "disk:full", " api", None, None, true, 1, map[]))| == 1
  {
    assert "postmortem" + ":" + "disk" + ":" + "full: api" == "postmortem" + ":" + "disk:full" + ":" + " api";
  }

  /** What the id is made of, kind by kind. */
  lemma IdText(title: string, body: string)
    ensures MakeId(Postmortem, title, body) == "postmortem" + ":" + title + ":" + body
    ensures MakeId(Runbook, title, body) == "runbook" + ":" + title + ":" + body
    ensures MakeId(Service, title, body) == "service" + ":" + title + ":" + body
    ensures MakeId(Pattern, title, body) == "pattern" + ":" + title + ":" + body
    ensures MakeId(Run, title, body) == "run" + ":" + title + ":" + body
  {
  }

  type Documents = map<string, Document>

  /** `INSERT ... ON CONFLICT(id) DO UPDATE`: kind, thread and creation time stay those of the first insert. */
  function Upsert(t: Documents, d: Document): Documents {
    if d.id in t
    then t[d.id := t[d.id].(title := d.title, body := d.body, service := d.service, verified := d.verified,
                            metadata := d.metadata)]
    else t[d.id := d]
  }

  function Remove(t: Documents, id: string): Documents {
    map key | key in t && key != id :: t[key]
  }

  function SetVerified(t: Documents, id: string, verified: bool): Documents {
    if id in t then t[id := t[id].(verified := verified)] else t
  }

  /** A new id gets the document; a known one keeps its kind, its thread and its time, and gets everything else. */
  lemma UpsertWrites(t: Documents, d: Document)
    ensures d.id !in t ==> Upsert(t, d) == t[d.id := d]
    ensures d.id in t ==>
      Upsert(t, d) == t[d.id :=
        Document(t[d.id].id, t[d.id].kind, d.title, d.body, d.service, t[d.id].threadId, d.verified,
                 t[d.id].createdAt, d.metadata)]
  {
  }

  /** One document goes; the others stay. */
  lemma RemoveWrites(t: Documents, id: string)
    ensures Remove(t, id).Keys == t.Keys - {id}
    ensures forall key :: key in t && key != id ==> Remove(t, id)[key] == t[key]
  {
  }

  /** The mark, of any document, and nothing else. */
  lemma SetVerifiedWrites(t: Documents, id: string, verified: bool)
    ensures id !in t ==> SetVerified(t, id, verified) == t
    ensures id in t ==>
      var d := t[id];
      SetVerified(t, id, verified) == t[id :=
        Document(d.id, d.kind, d.title, d.body, d.service, d.threadId, verified, d.createdAt, d.metadata)]
  {
  }

  // ------------------------------------------------------------------ what is written

  /** Missing and empty are the same to the program. */
  predicate Given(text: Option<string>) {
    text.Some? && text.value != ""
  }

  datatype Significance = Cause | RuledOut | Symptom | Other

  datatype Finding = Finding(summary: string, significance: Significance, service: Option<string>)

  /** A finished run; `account` is the text its findings and conclusion are rendered to. */
  datatype AgentRun = AgentRun(
    halted: bool, findings: seq<Finding>, account: string, threadId: string, turns: string, service: Option<string>)

  function Causes(findings: seq<Finding>): seq<Finding> {
    if findings == [] then []
    else if findings[0].significance == Cause then [findings[0]] + Causes(findings[1..])
    else Causes(findings[1..])
  }

  function FirstService(findings: seq<Finding>): Option<string> {
    if findings == [] then None
    else if Given(findings[0].service) then findings[0].service
    else FirstService(findings[1..])
  }

  /** A run that was halted, or found no cause, teaches nothing. */
  function RunToDocument(run: AgentRun, at: int): Option<Document> {
    var causes := Causes(run.findings);
    if run.halted || causes == [] then None
    else
      var title := if |causes[0].summary| <= 120 then causes[0].summary else causes[0].summary[..120];
      Some(NewDocument(Run, title, run.account,
                       if Given(run.service) then run.service else FirstService(run.findings),
                       Some(run.threadId), false, at, map["turns" := run.turns]))
  }

  datatype Write =
    | RecordRun(run: AgentRun, at: int)
    | AddPostmortem(title: string, body: string, service: string, incident: Option<string>, trusted: bool, at: int)
    | AddRunbook(title: string, body: string, service: string, at: int)
    | Verify(id: string, verified: bool)
    | Delete(id: string)

  /** The document a write files, if it files one. */
  function Files(w: Write): Option<Document> {
    match w
    case RecordRun(run, at) => RunToDocument(run, at)
    case AddPostmortem(title, body, service, incident, trusted, at) =>
      Some(NewDocument(Postmortem, title, body, Some(service), incident, trusted, at,
                       if Given(incident) then map["incident_id" := incident.value] else map[]))
    case AddRunbook(title, body, service, at) =>
      Some(NewDocument(Runbook, title, body, Some(service), None, true, at, map[]))
    case _ => None
  }

  function Apply(t: Documents, w: Write): Documents {
    match w
    case Verify(id, verified) => SetVerified(t, id, verified)
    case Delete(id) => Remove(t, id)
    case _ => if Files(w).Some? then Upsert(t, Files(w).value) else t
  }

  /** What a write does to the shelf: it files its document, marks one, or takes one away. */
  lemma ApplyWrites(t: Documents, w: Write)
    ensures Files(w).Some? ==>
      var d := Files(w).value; var u := Apply(t, w);
      && d.id in u && u.Keys == t.Keys + {d.id} && (forall key :: key in t && key != d.id ==> u[key] == t[key])
      && u[d.id].title == d.title && u[d.id].body == d.body && u[d.id].service == d.service
      && u[d.id].verified == d.verified && u[d.id].metadata == d.metadata
      && u[d.id].kind == if d.id in t then t[d.id].kind else d.kind
    ensures w.Verify? ==>
      Apply(t, w) == if w.id in t then t[w.id := t[w.id].(verified := w.verified)] else t
    ensures w.Delete? ==> Apply(t, w) == map key | key in t && key != w.id :: t[key]
    ensures w.RecordRun? && Files(w) == None ==> Apply(t, w) == t
  {
  }

  function ApplyAll(t: Documents, writes: seq<Write>): Documents {
    if writes == [] then t else Apply(ApplyAll(t, writes[..|writes| - 1]), writes[|writes| - 1])
  }

  /** Finding number `i` is the first that is a cause. */
  ghost predicate FirstCause(findings: seq<Finding>, i: nat) {
    && i < |findings| && findings[i].significance == Cause
    && forall j :: 0 <= j < i ==> findings[j].significance != Cause
  }

  lemma {:induction false} FirstCauseLeads(findings: seq<Finding>, i: nat)
    requires FirstCause(findings, i)
    ensures Causes(findings) != [] && Causes(findings)[0] == findings[i]
  {
    if i > 0 {
      assert findings[0].significance != Cause;
      forall j | 0 <= j < i - 1 ensures findings[1..][j].significance != Cause {
        assert findings[1..][j] == findings[j + 1];
      }
      FirstCauseLeads(findings[1..], i - 1);
    }
  }

  /** The service a finding names first, if any names one. */
  lemma {:induction false} FirstServiceIs(findings: seq<Finding>)
    ensures FirstService(findings) == None <==>
      forall j :: 0 <= j < |findings| ==> findings[j].service == None || findings[j].service == Some("")
    ensures FirstService(findings).Some? ==>
      exists i :: 0 <= i < |findings| && FirstNamed(findings, i) && FirstService(findings) == findings[i].service
  {
    if findings != [] {
      if Given(findings[0].service) {
        assert FirstNamed(findings, 0);
      } else {
        FirstServiceIs(findings[1..]);
        assert findings == [findings[0]] + findings[1..];
        if FirstService(findings).Some? {
          var i :| 0 <= i < |findings| - 1 && FirstNamed(findings[1..], i)
                   && FirstService(findings[1..]) == findings[1..][i].service;
          assert FirstNamed(findings, i + 1) by {
            forall j | 0 <= j < i + 1 ensures findings[j].service == None || findings[j].service == Some("") {
              assert j > 0 ==> findings[j] == findings[1..][j - 1];
            }
          }
        }
      }
    }
  }

  ghost predicate FirstNamed(findings: seq<Finding>, i: int) {
    && 0 <= i < |findings| && findings[i].service.Some? && findings[i].service.value != ""
    && forall j :: 0 <= j < i ==> findings[j].service == None || findings[j].service == Some("")
  }

  /** What is filed about a run: its first cause for a title, its own account, unverified. */
  lemma RecordedDocument(run: AgentRun, at: int, i: nat)
    requires !run.halted && FirstCause(run.findings, i)
    ensures RunToDocument(run, at).Some?
    ensures var d := RunToDocument(run, at).value; var summary := run.findings[i].summary;
      && d.kind == Run && d.title == (if |summary| <= 120 then summary else summary[..120])
      && d.body == run.account && d.threadId == Some(run.threadId) && !d.verified && d.createdAt == at
      && d.metadata == map["turns" := run.turns] && d.id == "run" + ":" + d.title + ":" + run.account
      && d.service == if run.service.Some? && run.service.value != "" then run.service else FirstService(run.findings)
  {
    FirstCauseLeads(run.findings, i);
    var summary := run.findings[i].summary;
    IdText(if |summary| <= 120 then summary else summary[..120], run.account);
  }

  /** What people file: a postmortem, trusted as they say, and a runbook, trusted. */
  lemma FiledByPeople(title: string, body: string, service: string, incident: Option<string>, trusted: bool, at: int)
    ensures Files(AddPostmortem(title, body, service, incident, trusted, at)) == Some(
      Document(MakeId(Postmortem, title, body), Postmortem, title, body, Some(service), incident, trusted, at,
               if incident.Some? && incident.value != "" then map["incident_id" := incident.value] else map[]))
    ensures Files(AddRunbook(title, body, service, at)) == Some(
      Document(MakeId(Runbook, title, body), Runbook, title, body, Some(service), None, true, at, map[]))
  {
  }

  /** Only what concluded is recorded, and never as verified. */
  lemma OnlyConcludedRunsAreRecorded(run: AgentRun, at: int)
    ensures RunToDocument(run, at).Some? <==>
      !run.halted && exists f :: f in run.findings && f.significance == Cause
    ensures RunToDocument(run, at).Some? ==>
      RunToDocument(run, at).value.kind == Run && !RunToDocument(run, at).value.verified
  {
    CausesAreCauses(run.findings);
  }

  lemma {:induction false} CausesAreCauses(findings: seq<Finding>)
    ensures Causes(findings) != [] <==> exists f :: f in findings && f.significance == Cause
  {
    if findings != [] {
      CausesAreCauses(findings[1..]);
    }
  }

  // ------------------------------------------------------------------------- trust

  /** Every row lies under the id of its own kind and text. */
  ghost predicate Keyed(t: Documents) {
    forall id :: id in t ==> t[id].id == id && id == MakeId(t[id].kind, t[id].title, t[id].body)
  }

  lemma ApplyKeepsKeyed(t: Documents, w: Write)
    requires Keyed(t)
    ensures Keyed(Apply(t, w))
  {
    if Files(w).Some? {
      var d := Files(w).value;
      if d.id in t {
        IdDeterminesKind(t[d.id].kind, d.kind, t[d.id].title, t[d.id].body, d.title, d.body);
      }
    }
  }

  lemma {:induction false} WritesKeepKeyed(t: Documents, writes: seq<Write>)
    requires Keyed(t)
    ensures Keyed(ApplyAll(t, writes))
  {
    if writes != [] {
      WritesKeepKeyed(t, writes[..|writes| - 1]);
      ApplyKeepsKeyed(ApplyAll(t, writes[..|writes| - 1]), writes[|writes| - 1]);
    }
  }

  /** What agents alone can do to the shelf. */
  ghost predicate Harmless(t: Documents, u: Documents) {
    && (forall id :: id in t ==> id in u && u[id].kind == t[id].kind && (t[id].kind != Run ==> u[id] == t[id]))
    && forall id :: id in u ==>
         (u[id].verified ==> id in t && t[id].verified) && (id !in t ==> u[id].kind == Run)
  }

  lemma RecordIsHarmless(t: Documents, run: AgentRun, at: int)
    requires Keyed(t)
    ensures Harmless(t, Apply(t, RecordRun(run, at)))
  {
    if RunToDocument(run, at).Some? {
      var d := RunToDocument(run, at).value;
      if d.id in t {
        IdDeterminesKind(t[d.id].kind, Run, t[d.id].title, t[d.id].body, d.title, d.body);
      }
    }
  }

  lemma HarmlessTransitive(t: Documents, u: Documents, v: Documents)
    requires Harmless(t, u) && Harmless(u, v)
    ensures Harmless(t, v)
  {
    forall id | id in v ensures (v[id].verified ==> id in t && t[id].verified) && (id !in t ==> v[id].kind == Run) {
      if id in u && id !in t {
        assert u[id].kind == Run && v[id].kind == Run;
      }
    }
  }

  /**
   No number of agent write-backs makes any document verified, alters or removes a postmortem, a runbook or any other
   document that is not an account of a run, or adds one.
   */
  lemma {:induction false} AgentsCannotEstablishFacts(t: Documents, writes: seq<Write>)
    requires Keyed(t) && forall i :: 0 <= i < |writes| ==> writes[i].RecordRun?
    ensures Harmless(t, ApplyAll(t, writes))
  {
    if writes != [] {
      var front, last := writes[..|writes| - 1], writes[|writes| - 1];
      AgentsCannotEstablishFacts(t, front);
      WritesKeepKeyed(t, front);
      RecordIsHarmless(ApplyAll(t, front), last.run, last.at);
      HarmlessTransitive(t, ApplyAll(t, front), ApplyAll(t, writes));
    }
  }

  predicate Touches(w: Write, id: string) {
    match w
    case Verify(key, _) => key == id
    case Delete(key) => key == id
    case _ => Files(w).Some? && Files(w).value.id == id
  }

  function LastTouch(writes: seq<Write>, id: string): Option<Write> {
    if writes == [] then None
    else if Touches(writes[|writes| - 1], id) then Some(writes[|writes| - 1])
    else LastTouch(writes[..|writes| - 1], id)
  }

  /**
   An account of a run is verified exactly when the last thing written to it was a human's verification: recording the
   same run again takes the mark away.
   */
  lemma {:induction false} RunsAreVerifiedByHumansOnly(writes: seq<Write>, id: string)
    requires id in ApplyAll(map[], writes) && ApplyAll(map[], writes)[id].kind == Run
    ensures ApplyAll(map[], writes)[id].verified <==> LastTouch(writes, id) == Some(Verify(id, true))
  {
    var front, last := writes[..|writes| - 1], writes[|writes| - 1];
    WritesKeepKeyed(map[], front);
    var before := ApplyAll(map[], front);
    if !Touches(last, id) {
      RunsAreVerifiedByHumansOnly(front, id);
    } else if Files(last).Some? {
      var d, now := Files(last).value, ApplyAll(map[], writes)[id];
      ApplyKeepsKeyed(before, last);
      IdDeterminesKind(now.kind, d.kind, now.title, now.body, d.title, d.body);
    }
  }

  /** A human's mark does not outlive the next recording of the same account: no human took it back. */
  lemma RecordingAgainUnverifies(run: AgentRun, at: int, later: int)
    requires RunToDocument(run, at).Some?
    ensures var id := RunToDocument(run, at).value.id;
      var marked := ApplyAll(map[], [RecordRun(run, at), Verify(id, true)]);
      var again := ApplyAll(map[], [RecordRun(run, at), Verify(id, true), RecordRun(run, later)]);
      id in marked && marked[id].verified && id in again && !again[id].verified
  {
    var id := RunToDocument(run, at).value.id;
    var first, second, third := RecordRun(run, at), Verify(id, true), RecordRun(run, later);
    assert [first][..0] == [] && [first, second][..1] == [first] && [first, second, third][..2] == [first, second];
    assert ApplyAll(map[], [first]) == Apply(map[], first) by {
      assert ApplyAll(map[], []) == map[];
    }
    assert ApplyAll(map[], [first, second]) == Apply(Apply(map[], first), second);
    assert ApplyAll(map[], [first, second, third]) == Apply(Apply(Apply(map[], first), second), third);
  }
}

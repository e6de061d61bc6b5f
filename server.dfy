/** The state server.js keeps and the handlers that change it: the inbox document, the set
    of live WebSocket connections, the connection handlers, `broadcast`, and the POST
    `/api/tasks` handler. The document is the file's text (an absent file reads as the
    empty text); whether a connection is open and whether a send to it throws are
    parameters, as is `JSON.stringify`. */
module Server {
  import opened Js
  import opened Tasks
  import opened Inbox

  /** What the server pushes to viewers, before serialisation. */
  datatype Event = StatusUpdate(content: string) | TaskAdded(task: CleanTask)

  /** A WebSocket connection, by identity. */
  type Connection = nat

  /** One call of `send` on a connection. */
  datatype Delivery = Delivery(to: Connection, payload: string)

  datatype Response = Response(status: nat, success: bool, message: string)

  const TaskAddedMessage: string := "任务添加成功"

  /** A JavaScript `Set` iterated in insertion order: no element twice. */
  ghost predicate Distinct(cs: seq<Connection>) {
    forall i, j :: 0 <= i < j < |cs| ==> cs[i] != cs[j]
  }

  /** `set.delete(c)` */
  function Without(cs: seq<Connection>, c: Connection): (r: seq<Connection>)
    ensures c !in r
    ensures c !in cs ==> r == cs
  {
    if cs == [] then []
    else (if cs[0] == c then [] else [cs[0]]) + Without(cs[1..], c)
  }

  lemma {:induction false} WithoutAppend(a: seq<Connection>, b: seq<Connection>, c: Connection)
    ensures Without(a + b, c) == Without(a, c) + Without(b, c)
  {
    if a == [] {
      assert a + b == b;
    } else {
      assert (a + b)[0] == a[0] && (a + b)[1..] == a[1..] + b;
      WithoutAppend(a[1..], b, c);
    }
  }

  /** Whether `broadcast` keeps a connection: every one except an open one whose send threw. */
  predicate Kept(c: Connection, isOpen: Connection -> bool, sendThrows: Connection -> bool) {
    !(isOpen(c) && sendThrows(c))
  }

  /** The connections left after `broadcast`, in their original order. */
  function Survivors(cs: seq<Connection>, isOpen: Connection -> bool, sendThrows: Connection -> bool): (r: seq<Connection>)
    ensures forall x :: x in r ==> x in cs && Kept(x, isOpen, sendThrows)
    ensures |r| <= |cs|
  {
    if cs == [] then []
    else
      var last := cs[|cs| - 1];
      Survivors(cs[..|cs| - 1], isOpen, sendThrows)
      + (if Kept(last, isOpen, sendThrows) then [last] else [])
  }

  /** The `send` calls `broadcast` makes: one per open connection, in order, all with the
      same serialised payload. */
  function Sends(cs: seq<Connection>, isOpen: Connection -> bool, payload: string): (r: seq<Delivery>)
    ensures forall d :: d in r ==> d.to in cs && isOpen(d.to) && d.payload == payload
  {
    if cs == [] then []
    else
      var last := cs[|cs| - 1];
      Sends(cs[..|cs| - 1], isOpen, payload)
      + (if isOpen(last) then [Delivery(last, payload)] else [])
  }

  /** A connection survives `broadcast` exactly when it was registered and is not an open
      one whose send threw; in particular a connection that is not open is never removed. */
  lemma {:induction false} SurvivorsMembership(cs: seq<Connection>, isOpen: Connection -> bool, sendThrows: Connection -> bool, c: Connection)
    ensures c in Survivors(cs, isOpen, sendThrows) <==> c in cs && Kept(c, isOpen, sendThrows)
  {
    if cs != [] {
      var init := cs[..|cs| - 1];
      SurvivorsMembership(init, isOpen, sendThrows, c);
      assert cs == init + [cs[|cs| - 1]];
    }
  }

  lemma {:induction false} SurvivorsDistinct(cs: seq<Connection>, isOpen: Connection -> bool, sendThrows: Connection -> bool)
    requires Distinct(cs)
    ensures Distinct(Survivors(cs, isOpen, sendThrows))
  {
    if cs != [] {
      var init := cs[..|cs| - 1];
      var last := cs[|cs| - 1];
      assert Distinct(init);
      SurvivorsDistinct(init, isOpen, sendThrows);
      SurvivorsMembership(init, isOpen, sendThrows, last);
      assert last !in init;
    }
  }

  function SendCount(sent: seq<Delivery>, c: Connection): nat {
    if sent == [] then 0
    else SendCount(sent[..|sent| - 1], c) + (if sent[|sent| - 1].to == c then 1 else 0)
  }

  lemma {:induction false} SendCountAppend(a: seq<Delivery>, b: seq<Delivery>, c: Connection)
    ensures SendCount(a + b, c) == SendCount(a, c) + SendCount(b, c)
    decreases |b|
  {
    if b == [] {
      assert a + b == a;
    } else {
      var init := b[..|b| - 1];
      assert (a + b)[..|a + b| - 1] == a + init;
      SendCountAppend(a, init, c);
    }
  }

  /** Among distinct connections, each open one receives exactly one `send` and every other
      receives none. */
  lemma {:induction false} SendsOncePerOpenClient(cs: seq<Connection>, isOpen: Connection -> bool, payload: string, c: Connection)
    requires Distinct(cs)
    ensures SendCount(Sends(cs, isOpen, payload), c) == (if c in cs && isOpen(c) then 1 else 0)
  {
    if cs != [] {
      var init := cs[..|cs| - 1];
      var last := cs[|cs| - 1];
      assert Distinct(init);
      SendsOncePerOpenClient(init, isOpen, payload, c);
      SendCountAppend(Sends(init, isOpen, payload),
                      if isOpen(last) then [Delivery(last, payload)] else [], c);
      assert cs == init + [last];
      assert last !in init;
      if isOpen(last) {
        assert SendCount([Delivery(last, payload)], c) == (if last == c then 1 else 0);
      }
    }
  }

  /** Three open viewers of which the second one's send throws: all three are sent the
      message, and afterwards only the first and the third are registered. */
  lemma SecondOfThreeFails(a: Connection, b: Connection, c: Connection, isOpen: Connection -> bool,
                           sendThrows: Connection -> bool, payload: string)
    requires isOpen(a) && isOpen(b) && isOpen(c)
    requires !sendThrows(a) && sendThrows(b) && !sendThrows(c)
    ensures Sends([a, b, c], isOpen, payload)
              == [Delivery(a, payload), Delivery(b, payload), Delivery(c, payload)]
    ensures Survivors([a, b, c], isOpen, sendThrows) == [a, c]
  {
    SendsThree(a, b, c, isOpen, payload);
    SurvivorsThree(a, b, c, isOpen, sendThrows);
  }

  lemma SendsThree(a: Connection, b: Connection, c: Connection, isOpen: Connection -> bool,
                   payload: string)
    ensures Sends([a, b, c], isOpen, payload)
              == Sends([a], isOpen, payload)
                 + (if isOpen(b) then [Delivery(b, payload)] else [])
                 + (if isOpen(c) then [Delivery(c, payload)] else [])
  {
    SendsSnoc([a], b, isOpen, payload);
    assert [a] + [b] == [a, b];
    SendsSnoc([a, b], c, isOpen, payload);
    assert [a, b] + [c] == [a, b, c];
  }

  lemma SurvivorsThree(a: Connection, b: Connection, c: Connection, isOpen: Connection -> bool,
                       sendThrows: Connection -> bool)
    ensures Survivors([a, b, c], isOpen, sendThrows)
              == Survivors([a], isOpen, sendThrows)
                 + (if Kept(b, isOpen, sendThrows) then [b] else [])
                 + (if Kept(c, isOpen, sendThrows) then [c] else [])
  {
    SurvivorsSnoc([a], b, isOpen, sendThrows);
    assert [a] + [b] == [a, b];
    SurvivorsSnoc([a, b], c, isOpen, sendThrows);
    assert [a, b] + [c] == [a, b, c];
  }

  class Hub {
    /** The inbox document. */
    var inbox: string
    /** `clients`, in insertion order. */
    var clients: seq<Connection>

    ghost predicate Valid()
      reads this
    {
      Distinct(clients)
    }

    constructor (inbox: string)
      ensures Valid() && this.inbox == inbox && clients == []
    {
      this.inbox := inbox;
      clients := [];
    }

    /** The `connection` handler: register the connection, then send it the outbox text as a
        `status-update`. A failure of that send is only logged: the connection stays. */
    method Connect(c: Connection, outbox: string, serialize: Event -> string) returns (greeting: Delivery)
      requires Valid()
      modifies this`clients
      ensures Valid()
      ensures clients == if c in old(clients) then old(clients) else old(clients) + [c]
      ensures greeting == Delivery(c, serialize(StatusUpdate(outbox)))
    {
      if c !in clients {
        clients := clients + [c];
      }
      greeting := Delivery(c, serialize(StatusUpdate(outbox)));
    }

    /** The `close` and `error` handlers. */
    method Disconnect(c: Connection)
      requires Valid()
      modifies this`clients
      ensures Valid()
      ensures clients == Without(old(clients), c)
      ensures c !in clients
    {
      WithoutKeepsDistinct(clients, c);
      clients := Without(clients, c);
    }

    /** `broadcast`: the payload is serialised once by the caller; every open connection is
        sent it once, and one whose send throws is deleted while the walk goes on. */
    method Broadcast(payload: string, isOpen: Connection -> bool, sendThrows: Connection -> bool)
      returns (sent: seq<Delivery>)
      requires Valid()
      modifies this`clients
      ensures Valid()
      ensures sent == Sends(old(clients), isOpen, payload)
      ensures clients == Survivors(old(clients), isOpen, sendThrows)
    {
      var snapshot := clients;
      sent := [];
      var i := 0;
      assert snapshot[..0] == [] && snapshot[0..] == snapshot;
      assert clients == Survivors(snapshot[..0], isOpen, sendThrows) + snapshot[0..];
      assert sent == Sends(snapshot[..0], isOpen, payload);
      while i < |snapshot|
        invariant 0 <= i <= |snapshot|
        invariant Distinct(snapshot)
        invariant clients == Survivors(snapshot[..i], isOpen, sendThrows) + snapshot[i..]
        invariant sent == Sends(snapshot[..i], isOpen, payload)
      {
        var client := snapshot[i];
        SendsStep(snapshot, i, isOpen, payload);
        if isOpen(client) {
          sent := sent + [Delivery(client, payload)];
          if sendThrows(client) {
            DistinctNotBefore(snapshot, i);
            DistinctNotAfter(snapshot, i);
            DroppedStep(snapshot, i, isOpen, sendThrows);
            clients := Without(clients, client);
          } else {
            KeptStep(snapshot, i, isOpen, sendThrows);
          }
        } else {
          KeptStep(snapshot, i, isOpen, sendThrows);
        }
        i := i + 1;
      }
      assert snapshot[..i] == snapshot;
      SurvivorsDistinct(snapshot, isOpen, sendThrows);
    }

    /** The POST `/api/tasks` handler. A body that fails validation is answered with 400 and
        its message before the inbox is read, written or anything is broadcast. Otherwise the
        body is cleaned, formatted, spliced into the inbox, announced to all viewers as
        `task-added` with the cleaned record, and answered with success. */
    method PostTask(body: TaskBody, id: string, serialize: Event -> string,
                    isOpen: Connection -> bool, sendThrows: Connection -> bool)
      returns (response: Response, sent: seq<Delivery>)
      requires Valid()
      modifies this`inbox, this`clients
      ensures Valid()
      ensures Validate(body).Invalid? ==>
                && response == Response(400, false, Validate(body).message)
                && inbox == old(inbox) && clients == old(clients) && sent == []
      ensures Validate(body).Valid? ==>
                && response == Response(200, true, TaskAddedMessage)
                && inbox == InsertTask(old(inbox), FormatTask(Clean(body), id))
                && sent == Sends(old(clients), isOpen, serialize(TaskAdded(Clean(body))))
                && clients == Survivors(old(clients), isOpen, sendThrows)
    {
      var validation := Validate(body);
      if validation.Invalid? {
        response := Response(400, false, validation.message);
        sent := [];
        return;
      }
      var task := Clean(body);
      var markdown := FormatTask(task, id);
      var content := inbox;
      var found := MatchPending(content);
      if found.Some? {
        var m := found.value;
        var replacement := content[m.start..m.headEnd] + markdown;
        content := Replace(content, m, replacement);
      } else {
        content := content + markdown;
      }
      inbox := content;
      sent := Broadcast(serialize(TaskAdded(task)), isOpen, sendThrows);
      response := Response(200, true, TaskAddedMessage);
    }
  }

  lemma DistinctNotBefore(cs: seq<Connection>, i: nat)
    requires Distinct(cs) && i < |cs|
    ensures cs[i] !in cs[..i]
  {
  }

  lemma DistinctNotAfter(cs: seq<Connection>, i: nat)
    requires Distinct(cs) && i < |cs|
    ensures cs[i] !in cs[i + 1..]
  {
  }

  /** One step of the walk over the connections as they were when `broadcast` started:
      the `i`-th is sent the payload exactly when it is open. */
  lemma SendsStep(snapshot: seq<Connection>, i: nat, isOpen: Connection -> bool, payload: string)
    requires i < |snapshot|
    ensures Sends(snapshot[..i + 1], isOpen, payload)
              == Sends(snapshot[..i], isOpen, payload)
                 + (if isOpen(snapshot[i]) then [Delivery(snapshot[i], payload)] else [])
  {
    assert snapshot[..i + 1][..i] == snapshot[..i];
  }

  lemma SendsSnoc(cs: seq<Connection>, c: Connection, isOpen: Connection -> bool, payload: string)
    ensures Sends(cs + [c], isOpen, payload)
              == Sends(cs, isOpen, payload) + (if isOpen(c) then [Delivery(c, payload)] else [])
  {
    assert (cs + [c])[..|cs|] == cs;
  }

  lemma SurvivorsSnoc(cs: seq<Connection>, c: Connection, isOpen: Connection -> bool,
                      sendThrows: Connection -> bool)
    ensures Survivors(cs + [c], isOpen, sendThrows)
              == Survivors(cs, isOpen, sendThrows) + (if Kept(c, isOpen, sendThrows) then [c] else [])
  {
    assert (cs + [c])[..|cs|] == cs;
  }

  /** One step of the walk that keeps the `i`-th connection: the set is left as it is. */
  lemma KeptStep(snapshot: seq<Connection>, i: nat, isOpen: Connection -> bool,
                 sendThrows: Connection -> bool)
    requires i < |snapshot| && Kept(snapshot[i], isOpen, sendThrows)
    ensures Survivors(snapshot[..i + 1], isOpen, sendThrows) + snapshot[i + 1..]
              == Survivors(snapshot[..i], isOpen, sendThrows) + snapshot[i..]
  {
    assert snapshot[..i + 1] == snapshot[..i] + [snapshot[i]];
    assert snapshot[i..] == [snapshot[i]] + snapshot[i + 1..];
    KeptSplice(snapshot[..i], snapshot[i], snapshot[i + 1..], isOpen, sendThrows);
  }

  lemma KeptSplice(init: seq<Connection>, c: Connection, rest: seq<Connection>,
                   isOpen: Connection -> bool, sendThrows: Connection -> bool)
    requires Kept(c, isOpen, sendThrows)
    ensures Survivors(init + [c], isOpen, sendThrows) + rest
              == Survivors(init, isOpen, sendThrows) + ([c] + rest)
  {
    SurvivorsSnoc(init, c, isOpen, sendThrows);
  }

  /** One step of the walk that drops the `i`-th connection, open and failing: deleting it
      from the current set leaves the survivors so far followed by the rest of the walk. */
  lemma DroppedStep(snapshot: seq<Connection>, i: nat, isOpen: Connection -> bool,
                    sendThrows: Connection -> bool)
    requires i < |snapshot| && !Kept(snapshot[i], isOpen, sendThrows)
    requires snapshot[i] !in snapshot[..i] && snapshot[i] !in snapshot[i + 1..]
    ensures Survivors(snapshot[..i + 1], isOpen, sendThrows) + snapshot[i + 1..]
              == Without(Survivors(snapshot[..i], isOpen, sendThrows) + snapshot[i..], snapshot[i])
  {
    assert snapshot[..i + 1] == snapshot[..i] + [snapshot[i]];
    assert snapshot[i..] == [snapshot[i]] + snapshot[i + 1..];
    DroppedSplice(snapshot[..i], snapshot[i], snapshot[i + 1..], isOpen, sendThrows);
  }

  lemma DroppedSplice(init: seq<Connection>, c: Connection, rest: seq<Connection>,
                      isOpen: Connection -> bool, sendThrows: Connection -> bool)
    requires !Kept(c, isOpen, sendThrows) && c !in init && c !in rest
    ensures Survivors(init + [c], isOpen, sendThrows) + rest
              == Without(Survivors(init, isOpen, sendThrows) + ([c] + rest), c)
  {
    var done := Survivors(init, isOpen, sendThrows);
    SurvivorsMembership(init, isOpen, sendThrows, c);
    WithoutOnly(done, c, rest);
    SurvivorsSnoc(init, c, isOpen, sendThrows);
    assert Survivors(init + [c], isOpen, sendThrows) == done;
  }

  /** Deleting an element that occurs once removes just that occurrence. */
  lemma WithoutOnly(done: seq<Connection>, c: Connection, rest: seq<Connection>)
    requires c !in done && c !in rest
    ensures Without(done + ([c] + rest), c) == done + rest
  {
    var tail := [c] + rest;
    assert tail[0] == c && tail[1..] == rest;
    assert Without(tail, c) == rest;
    assert Without(done, c) == done;
    WithoutAppend(done, tail, c);
  }

  lemma {:induction false} WithoutSubset(cs: seq<Connection>, c: Connection, x: Connection)
    ensures x in Without(cs, c) <==> x in cs && x != c
  {
    if cs != [] {
      WithoutSubset(cs[1..], c, x);
      assert cs == [cs[0]] + cs[1..];
    }
  }

  lemma DistinctTail(cs: seq<Connection>)
    requires Distinct(cs) && cs != []
    ensures Distinct(cs[1..]) && cs[0] !in cs[1..]
  {
    forall a, b | 0 <= a < b < |cs[1..]| ensures cs[1..][a] != cs[1..][b] {
      assert cs[1..][a] == cs[a + 1] && cs[1..][b] == cs[b + 1];
    }
  }

  lemma DistinctCons(x: Connection, cs: seq<Connection>)
    requires Distinct(cs) && x !in cs
    ensures Distinct([x] + cs)
  {
    forall a, b | 0 <= a < b < |[x] + cs| ensures ([x] + cs)[a] != ([x] + cs)[b] {
      assert ([x] + cs)[b] == cs[b - 1];
    }
  }

  /** Deleting from a set leaves it free of duplicates. */
  lemma {:induction false} WithoutKeepsDistinct(cs: seq<Connection>, c: Connection)
    requires Distinct(cs)
    ensures Distinct(Without(cs, c))
  {
    if cs != [] {
      DistinctTail(cs);
      WithoutKeepsDistinct(cs[1..], c);
      if cs[0] != c {
        WithoutSubset(cs[1..], c, cs[0]);
        DistinctCons(cs[0], Without(cs[1..], c));
      }
    }
  }

  /** When no value placed into the record holds a `$`, a valid submission lands in the
      inbox exactly as formatted: right after the heading and its whitespace, dropping the
      placeholder there, or appended at the end when the inbox has no pending heading. */
  lemma SubmissionInsertedVerbatim(inbox: string, body: TaskBody, id: string)
    requires '$' !in id
    requires '$' !in ToText(Or(body.priority, Str(DefaultPriority)))
    requires '$' !in ToText(Or(body.deadline, Str("")))
    requires body.title.Str? ==> '$' !in body.title.s
    requires body.description.Str? ==> '$' !in body.description.s
    requires body.expected.Str? ==> '$' !in body.expected.s
    requires body.notes.Str? ==> '$' !in body.notes.s
    ensures var record := FormatTask(Clean(body), id);
      && (MatchPending(inbox).None? ==> InsertTask(inbox, record) == inbox + record)
      && (MatchPending(inbox).Some? ==>
            var m := MatchPending(inbox).value;
            InsertTask(inbox, record) == inbox[..m.headEnd] + record + inbox[m.end..])
  {
    var t := Clean(body);
    if body.title.Str? { EscapeKeepsDollar(body.title.s); }
    if body.description.Str? { EscapeKeepsDollar(body.description.s); }
    if Or(body.expected, Str("")).Str? { EscapeKeepsDollar(Or(body.expected, Str("")).s); }
    if Or(body.notes, Str("")).Str? { EscapeKeepsDollar(Or(body.notes, Str("")).s); }
    FormatDollarFree(t, id);
    if MatchPending(inbox).Some? {
      InsertUnderHeading(inbox, FormatTask(t, id));
    }
  }
}

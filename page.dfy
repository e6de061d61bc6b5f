/** The logic of the browser page (public/script.js): reading and checking the form before
    a submission, handling the server's answer, the newest-first history list and its
    rendering, and the dispatch of WebSocket messages. The DOM, timers and the network are
    not modelled: the page's visible state is a few fields of `TaskPage`, and what the
    server answers or pushes is a parameter. */
module Page {
  import opened Js
  import opened Tasks
  import opened Wrappers

  /** The values `FormData.get` returns for the six form controls. */
  datatype FormInput = FormInput(title: string, description: string, priority: string,
                                 deadline: string, expected: string, notes: string)

  /** The `taskData` object the page builds and posts. */
  datatype TaskData = TaskData(title: string, description: string, priority: string,
                               deadline: string, expected: string, notes: string)

  const RequiredMessage: string := "请填写任务标题和描述"
  const SubmittedMessage: string := "任务提交成功！"
  const SubmitFailedMessage: string := "提交任务失败，请重试"
  const TaskQueuedMessage: string := "任务已添加到智能体队列"

  /** The text and kind `showMessage` puts into the toast. */
  datatype Toast = Toast(message: string, kind: string)

  /** The task object built from the form: the four free-text fields are trimmed, the
      priority and the deadline are taken as they are. */
  function ReadForm(f: FormInput): (t: TaskData)
    ensures t.title == Trim(f.title) && t.description == Trim(f.description)
    ensures t.expected == Trim(f.expected) && t.notes == Trim(f.notes)
    ensures t.priority == f.priority && t.deadline == f.deadline
    ensures |t.title| <= |f.title| && |t.description| <= |f.description|
    ensures |t.expected| <= |f.expected| && |t.notes| <= |f.notes|
  {
    TaskData(Trim(f.title), Trim(f.description), f.priority, f.deadline,
             Trim(f.expected), Trim(f.notes))
  }

  datatype SubmitDecision = Rejected(toast: Toast) | Post(task: TaskData)

  /** The submit handler up to the request: a form whose title or description is blank
      after trimming is refused with an error toast and no request; any other form is
      posted as its trimmed task object. */
  function DecideSubmit(f: FormInput): (r: SubmitDecision)
    ensures r.Rejected? <==> AllWhitespace(f.title) || AllWhitespace(f.description)
    ensures r.Rejected? ==> r.toast == Toast(RequiredMessage, "error")
    ensures r.Post? ==> r.task == ReadForm(f) && r.task.title != [] && r.task.description != []
  {
    var t := ReadForm(f);
    TrimEmptyIff(f.title);
    TrimEmptyIff(f.description);
    if t.title == [] || t.description == [] then Rejected(Toast(RequiredMessage, "error"))
    else Post(t)
  }

  /** The request body the server receives for a posted task object: every field a string. */
  function AsBody(t: TaskData): TaskBody {
    TaskBody(Str(t.title), Str(t.description), Str(t.priority), Str(t.deadline),
             Str(t.expected), Str(t.notes))
  }

  /** A body of non-empty strings passes the server's required check; on text from the
      Basic Multilingual Plane it is accepted exactly when within the length limits. */
  lemma NonEmptyBody(t: TaskData)
    requires t.title != [] && t.description != []
    ensures Validate(AsBody(t)) != Invalid(MissingFieldsMessage)
    ensures IsBmp(t.title) && IsBmp(t.description) ==>
              (Validate(AsBody(t)) == Valid <==>
                 |t.title| <= MaxTitleLength && |t.description| <= MaxDescriptionLength)
  {
    var body := AsBody(t);
    assert Truthy(body.title) && Truthy(body.description);
    assert MissingFieldsMessage[4] != TitleTooLongMessage[4];
    assert MissingFieldsMessage[2] != DescriptionTooLongMessage[2];
    if IsBmp(t.title) && IsBmp(t.description) {
      LengthLimits(body);
    }
  }

  /** A request the page posts is never refused by the server for a missing title or
      description; on text from the Basic Multilingual Plane it is accepted exactly when the
      trimmed title and description are within the server's length limits. */
  lemma PostedPassesRequiredCheck(f: FormInput)
    requires DecideSubmit(f).Post?
    ensures Validate(AsBody(DecideSubmit(f).task)) != Invalid(MissingFieldsMessage)
    ensures var t := DecideSubmit(f).task;
      IsBmp(t.title) && IsBmp(t.description) ==>
        (Validate(AsBody(t)) == Valid <==>
           |t.title| <= MaxTitleLength && |t.description| <= MaxDescriptionLength)
  {
    NonEmptyBody(DecideSubmit(f).task);
  }

  /** An entry of `taskHistory`: the submitted fields plus `id` (`Date.now()`) and
      `timestamp`, both supplied by the caller. */
  datatype HistoryEntry = HistoryEntry(task: TaskData, id: int, timestamp: string)

  const HistoryLimit: nat := 10

  function Take<T>(s: seq<T>, n: nat): (r: seq<T>)
    ensures |r| == if |s| < n then |s| else n
    ensures r <= s
  {
    if |s| > n then s[..n] else s
  }

  /** `unshift` followed by keeping the first ten. */
  function PushCapped(history: seq<HistoryEntry>, entry: HistoryEntry): (h: seq<HistoryEntry>)
    ensures |h| == if |history| + 1 < HistoryLimit then |history| + 1 else HistoryLimit
    ensures h[0] == entry
    ensures forall i :: 1 <= i < |h| ==> h[i] == history[i - 1]
  {
    Take([entry] + history, HistoryLimit)
  }

  function Reversed<T>(s: seq<T>): (r: seq<T>)
    ensures |r| == |s|
  {
    if s == [] then [] else Reversed(s[1..]) + [s[0]]
  }

  /** The history after adding `entries` one after the other. */
  function PushAll(history: seq<HistoryEntry>, entries: seq<HistoryEntry>): (r: seq<HistoryEntry>)
    ensures entries == [] ==> r == history
    ensures entries != [] ==>
              |r| == if |history| + |entries| < HistoryLimit then |history| + |entries| else HistoryLimit
    decreases |entries|
  {
    if entries == [] then history
    else PushAll(PushCapped(history, entries[0]), entries[1..])
  }


  lemma TakeAppend<T>(a: seq<T>, b: seq<T>, n: nat)
    requires n > 0
    ensures Take(a + Take(b, n), n) == Take(a + b, n)
  {
    if |b| > n {
      if |a| >= n {
        assert (a + b)[..n] == a[..n];
        assert (a + b[..n])[..n] == a[..n];
      } else {
        assert (a + b)[..n] == a + b[..n - |a|];
        assert (a + b[..n])[..n] == a + b[..n - |a|];
      }
    }
  }

  /** Whatever the starting list, adding tasks one by one leaves the ten most recent first,
      newest at the front, followed by what was there before, as far as room remains. */
  lemma {:induction false} PushAllNewestFirst(history: seq<HistoryEntry>, entries: seq<HistoryEntry>)
    requires entries != []
    ensures PushAll(history, entries) == Take(Reversed(entries) + history, HistoryLimit)
    decreases |entries|
  {
    var e := entries[0];
    var rest := entries[1..];
    if rest == [] {
      assert Reversed(entries) == [e] by {
        assert Reversed(entries) == Reversed(rest) + [e];
      }
      assert PushAll(history, entries) == PushCapped(history, e);
    } else {
      PushAllNewestFirst(PushCapped(history, e), rest);
      assert Reversed(entries) == Reversed(rest) + [e];
      calc {
        PushAll(history, entries);
        PushAll(PushCapped(history, e), rest);
        Take(Reversed(rest) + Take([e] + history, HistoryLimit), HistoryLimit);
        { TakeAppend(Reversed(rest), [e] + history, HistoryLimit); }
        Take(Reversed(rest) + ([e] + history), HistoryLimit);
        { assert Reversed(rest) + ([e] + history) == Reversed(rest) + [e] + history; }
        Take(Reversed(entries) + history, HistoryLimit);
      }
    }
  }

  /** The CSS class a task's priority selects. */
  function PriorityClass(priority: string): (c: string)
    ensures c == "high" <==> priority == "高"
    ensures c == "medium" <==> priority == "中"
    ensures c == "low" <==> priority != "高" && priority != "中"
  {
    if priority == "高" then "high" else if priority == "中" then "medium" else "low"
  }

  /** One rendered history item: its priority class, the texts it shows, and the deadline
      span, present only when the task has a deadline. */
  datatype RenderedItem = RenderedItem(priorityClass: string, title: string, description: string,
                                       priority: string, timestamp: string, deadline: Option<string>)

  /** The content of the history container. */
  datatype HistoryView = NoTasks | Items(items: seq<RenderedItem>)

  function RenderEntry(e: HistoryEntry): (item: RenderedItem)
    ensures item.title == e.task.title && item.description == e.task.description
    ensures item.priority == e.task.priority && item.timestamp == e.timestamp
    ensures item.priorityClass == PriorityClass(e.task.priority)
    ensures item.deadline.Some? <==> Truthy(Str(e.task.deadline))
    ensures item.deadline.Some? ==> item.deadline.value == e.task.deadline
  {
    RenderedItem(PriorityClass(e.task.priority), e.task.title, e.task.description,
                 e.task.priority, e.timestamp,
                 if e.task.deadline != "" then Some(e.task.deadline) else None)
  }

  function RenderItems(history: seq<HistoryEntry>): (items: seq<RenderedItem>)
    ensures |items| == |history|
    ensures forall i :: 0 <= i < |history| ==> items[i] == RenderEntry(history[i])
  {
    if history == [] then [] else [RenderEntry(history[0])] + RenderItems(history[1..])
  }

  /** `renderTaskHistory`: the placeholder exactly for an empty list, otherwise one item per
      task in list order. */
  function RenderHistory(history: seq<HistoryEntry>): (v: HistoryView)
    ensures v.NoTasks? <==> history == []
    ensures v.Items? ==> |v.items| == |history|
                         && forall i :: 0 <= i < |history| ==> v.items[i] == RenderEntry(history[i])
  {
    if |history| == 0 then NoTasks else Items(RenderItems(history))
  }

  /** A message pushed by the server, after `JSON.parse`. */
  datatype WsMessage = WsMessage(kind: string, content: string)

  /** What `handleWebSocketMessage` does with a message. */
  datatype Effect = ShowStatus(content: string) | Notify(toast: Toast) | Ignore

  function Dispatch(data: WsMessage): (e: Effect)
    ensures e.ShowStatus? <==> data.kind == "status-update"
    ensures e.ShowStatus? ==> e.content == data.content
    ensures e.Notify? <==> data.kind == "task-added"
    ensures e.Notify? ==> e.toast == Toast(TaskQueuedMessage, "info")
    ensures e.Ignore? <==> data.kind != "status-update" && data.kind != "task-added"
  {
    if data.kind == "status-update" then ShowStatus(data.content)
    else if data.kind == "task-added" then Notify(Toast(TaskQueuedMessage, "info"))
    else Ignore
  }

  /** The page's state: the history list, the status panel, the toast and the rendered
      history. */
  class TaskPage {
    var taskHistory: seq<HistoryEntry>
    var statusContent: string
    var toast: Option<Toast>
    var historyView: HistoryView

    /** The rendered history always shows the current list. */
    ghost predicate Valid()
      reads this
    {
      historyView == RenderHistory(taskHistory)
    }

    constructor ()
      ensures Valid() && taskHistory == [] && statusContent == "" && toast == None
    {
      taskHistory := [];
      statusContent := "";
      toast := None;
      historyView := NoTasks;
    }

    /** `addTaskToHistory`: the new entry goes to the front and the list keeps at most ten. */
    method AddTaskToHistory(task: TaskData, id: int, timestamp: string)
      requires Valid()
      modifies this`taskHistory, this`historyView
      ensures Valid()
      ensures taskHistory == PushCapped(old(taskHistory), HistoryEntry(task, id, timestamp))
    {
      taskHistory := [HistoryEntry(task, id, timestamp)] + taskHistory;
      if |taskHistory| > HistoryLimit {
        taskHistory := taskHistory[..HistoryLimit];
      }
      historyView := RenderHistory(taskHistory);
    }

    /** The submit handler: a form whose title or description is blank is refused with an
        error toast; otherwise the trimmed task object is returned as the request to post. */
    method Submit(form: FormInput) returns (request: Option<TaskData>)
      modifies this`toast
      ensures DecideSubmit(form).Rejected? ==>
                request == None && toast == Some(DecideSubmit(form).toast)
      ensures DecideSubmit(form).Post? ==>
                request == Some(DecideSubmit(form).task) && toast == old(toast)
    {
      var t := ReadForm(form);
      if t.title == [] || t.description == [] {
        toast := Some(Toast(RequiredMessage, "error"));
        request := None;
        return;
      }
      request := Some(t);
    }

    /** The answer to a posted task: `reply` is the `success` field of the parsed response,
        or `None` when the request or the parsing failed. Only a truthy `success` adds the
        task to the history; every other outcome shows the failure toast. */
    method SubmitResponded(task: TaskData, reply: Option<JsValue>, id: int, timestamp: string)
      requires Valid()
      modifies this`toast, this`taskHistory, this`historyView
      ensures Valid()
      ensures reply.Some? && Truthy(reply.value) ==>
                && toast == Some(Toast(SubmittedMessage, "success"))
                && taskHistory == PushCapped(old(taskHistory), HistoryEntry(task, id, timestamp))
      ensures !(reply.Some? && Truthy(reply.value)) ==>
                toast == Some(Toast(SubmitFailedMessage, "error")) && taskHistory == old(taskHistory)
    {
      if reply.Some? && Truthy(reply.value) {
        toast := Some(Toast(SubmittedMessage, "success"));
        AddTaskToHistory(task, id, timestamp);
      } else {
        toast := Some(Toast(SubmitFailedMessage, "error"));
      }
    }

    /** `handleWebSocketMessage` */
    method HandleWebSocketMessage(data: WsMessage)
      modifies this`statusContent, this`toast
      ensures Dispatch(data).ShowStatus? ==>
                statusContent == data.content && toast == old(toast)
      ensures Dispatch(data).Notify? ==>
                toast == Some(Dispatch(data).toast) && statusContent == old(statusContent)
      ensures Dispatch(data).Ignore? ==>
                statusContent == old(statusContent) && toast == old(toast)
    {
      if data.kind == "status-update" {
        statusContent := data.content;
      } else if data.kind == "task-added" {
        toast := Some(Toast(TaskQueuedMessage, "info"));
      }
    }
  }
}

/**
 * The task record of Vienna/VTask.h: the action, result and order codes, the
 * mutable VTask object with its setters, and the dispatch rule that tasks
 * with lower order codes run earlier. The order codes encode the phases of
 * a connect session (moderator actions, join, post/file/withdraw, resign,
 * read, transfers, conference list, resume, feeds); the lemmas below show
 * that a queue sorted by `taskCompare` puts those phases in that order.
 */
module Tasks {

  datatype Option<T> = None | Some(value: T)

  // ---------------------------------------------------------------------------
  // Task codes. Code 0 (MA_TaskCode_NoTask) is a sentinel naming no action.
  // ---------------------------------------------------------------------------

  const NO_TASK := 0

  datatype Action =
    | ReadMessages | PostMessages | ResignFolder | JoinFolder | FileMessages
    | WithdrawMessage | ConfList | SkipBack | GetResume | PutResume | GetRSS
    | ModAddPart | ModRemPart | ModNewConf | ModRdOnly | ModAddTopic
    | ModComod | ModExmod | FileDownload | FileUpload | SetCIXBack

  /** The seven moderator actions, which share one order code. */
  predicate IsModeratorAction(a: Action) {
    a in {ModAddPart, ModRemPart, ModNewConf, ModRdOnly, ModAddTopic, ModComod, ModExmod}
  }

  /** MA_TaskCode_*: the integer that stands for an action in a task. */
  function ActionCode(a: Action): (c: int)
    ensures 1 <= c <= 21
  {
    match a
    case ReadMessages => 1
    case PostMessages => 2
    case ResignFolder => 3
    case JoinFolder => 4
    case FileMessages => 5
    case WithdrawMessage => 6
    case ConfList => 7
    case SkipBack => 8
    case GetResume => 9
    case PutResume => 10
    case GetRSS => 11
    case ModAddPart => 12
    case ModRemPart => 13
    case ModNewConf => 14
    case ModRdOnly => 15
    case ModAddTopic => 16
    case ModComod => 17
    case ModExmod => 18
    case FileDownload => 19
    case FileUpload => 20
    case SetCIXBack => 21
  }

  /** The action a task code stands for; NoTask and unknown codes stand for none. */
  function ActionOf(c: int): Option<Action> {
    if c == 1 then Some(ReadMessages)
    else if c == 2 then Some(PostMessages)
    else if c == 3 then Some(ResignFolder)
    else if c == 4 then Some(JoinFolder)
    else if c == 5 then Some(FileMessages)
    else if c == 6 then Some(WithdrawMessage)
    else if c == 7 then Some(ConfList)
    else if c == 8 then Some(SkipBack)
    else if c == 9 then Some(GetResume)
    else if c == 10 then Some(PutResume)
    else if c == 11 then Some(GetRSS)
    else if c == 12 then Some(ModAddPart)
    else if c == 13 then Some(ModRemPart)
    else if c == 14 then Some(ModNewConf)
    else if c == 15 then Some(ModRdOnly)
    else if c == 16 then Some(ModAddTopic)
    else if c == 17 then Some(ModComod)
    else if c == 18 then Some(ModExmod)
    else if c == 19 then Some(FileDownload)
    else if c == 20 then Some(FileUpload)
    else if c == 21 then Some(SetCIXBack)
    else None
  }

  /**
   * The task codes are pairwise distinct and the sentinel is none of them:
   * decoding inverts encoding, and only the codes 1 to 21 decode.
   */
  lemma ActionCodeRoundTrip(a: Action, c: int)
    ensures ActionOf(ActionCode(a)) == Some(a)
    ensures ActionOf(c).Some? <==> 1 <= c <= 21
    ensures ActionOf(c).Some? ==> ActionCode(ActionOf(c).value) == c
    ensures ActionOf(NO_TASK) == None && ActionCode(a) != NO_TASK
  {
  }

  // ---------------------------------------------------------------------------
  // Result codes
  // ---------------------------------------------------------------------------

  datatype TaskResult = Succeeded | Waiting | Failed | Running

  /** MA_TaskResult_*. */
  function ResultCode(r: TaskResult): (c: int)
    ensures 1 <= c <= 4
  {
    match r
    case Succeeded => 1
    case Waiting => 2
    case Failed => 3
    case Running => 4
  }

  function ResultOf(c: int): Option<TaskResult> {
    if c == 1 then Some(Succeeded)
    else if c == 2 then Some(Waiting)
    else if c == 3 then Some(Failed)
    else if c == 4 then Some(Running)
    else None
  }

  /** The four result codes are pairwise distinct: each decodes back to its result. */
  lemma ResultCodeRoundTrip(r: TaskResult, c: int)
    ensures ResultOf(ResultCode(r)) == Some(r)
    ensures ResultOf(c).Some? <==> 1 <= c <= 4
    ensures ResultOf(c).Some? ==> ResultCode(ResultOf(c).value) == c
  {
  }

  // ---------------------------------------------------------------------------
  // Order codes: lower values are run earlier.
  // ---------------------------------------------------------------------------

  const ORDER_SET_CIX_BACK := 50
  const ORDER_MOD := 80
  const ORDER_JOIN_FOLDER := 90
  const ORDER_POST_MESSAGES := 100
  const ORDER_FILE_MESSAGES := 220
  const ORDER_WITHDRAW_MESSAGE := 230
  const ORDER_SKIP_BACK := 235
  const ORDER_RESIGN_FOLDER := 240
  const ORDER_READ_MESSAGES := 600
  const ORDER_FILE_UPLOAD := 650
  const ORDER_FILE_DOWNLOAD := 650
  const ORDER_CONF_LIST := 700
  const ORDER_PUT_RESUME := 750
  const ORDER_GET_RESUME := 755
  const ORDER_GET_RSS := 800

  /**
   * The MA_OrderCode_* constant named after an action (all seven moderator
   * actions share MA_OrderCode_Mod). The header pairs them by name only:
   * callers pass the action code and the order code separately.
   * SetCIXBack is strictly first and GetRSS strictly last.
   */
  function OrderCodeOf(a: Action): (o: int)
    ensures ORDER_SET_CIX_BACK <= o <= ORDER_GET_RSS
    ensures o == ORDER_SET_CIX_BACK <==> a == SetCIXBack
    ensures o == ORDER_GET_RSS <==> a == GetRSS
  {
    match a
    case SetCIXBack => ORDER_SET_CIX_BACK
    case ModAddPart => ORDER_MOD
    case ModRemPart => ORDER_MOD
    case ModNewConf => ORDER_MOD
    case ModRdOnly => ORDER_MOD
    case ModAddTopic => ORDER_MOD
    case ModComod => ORDER_MOD
    case ModExmod => ORDER_MOD
    case JoinFolder => ORDER_JOIN_FOLDER
    case PostMessages => ORDER_POST_MESSAGES
    case FileMessages => ORDER_FILE_MESSAGES
    case WithdrawMessage => ORDER_WITHDRAW_MESSAGE
    case SkipBack => ORDER_SKIP_BACK
    case ResignFolder => ORDER_RESIGN_FOLDER
    case ReadMessages => ORDER_READ_MESSAGES
    case FileUpload => ORDER_FILE_UPLOAD
    case FileDownload => ORDER_FILE_DOWNLOAD
    case ConfList => ORDER_CONF_LIST
    case PutResume => ORDER_PUT_RESUME
    case GetResume => ORDER_GET_RESUME
    case GetRSS => ORDER_GET_RSS
  }

  // ---------------------------------------------------------------------------
  // The task record
  // ---------------------------------------------------------------------------

  /** NSComparisonResult. */
  datatype Ordering = Ascending | Same | Descending

  /** A point in time, in seconds; only compared for equality here. */
  type Date = int

  /**
   * VTask. Strings that may be nil are modelled as strings (nil as ""), the
   * two dates as optional values.
   */
  class VTask {
    var taskId: int
    var orderCode: int
    var actionCode: int
    var resultCode: int
    var actionData: string
    var folderName: string
    var resultString: string
    var lastRunDate: Option<Date>
    var earliestRunDate: Option<Date>

    /** A new task: every field zero or empty, as the allocator leaves it. */
    constructor()
      ensures taskId == 0 && orderCode == 0 && actionCode == NO_TASK && resultCode == 0
      ensures actionData == "" && folderName == "" && resultString == ""
      ensures lastRunDate == None && earliestRunDate == None
    {
      taskId := 0;
      orderCode := 0;
      actionCode := NO_TASK;
      resultCode := 0;
      actionData := "";
      folderName := "";
      resultString := "";
      lastRunDate := None;
      earliestRunDate := None;
    }

    method SetTaskId(newTaskId: int)
      modifies this
      ensures taskId == newTaskId
      ensures orderCode == old(orderCode) && actionCode == old(actionCode)
      ensures resultCode == old(resultCode) && actionData == old(actionData)
      ensures folderName == old(folderName) && resultString == old(resultString)
      ensures lastRunDate == old(lastRunDate) && earliestRunDate == old(earliestRunDate)
    {
      taskId := newTaskId;
    }

    method SetOrderCode(newOrderCode: int)
      modifies this
      ensures orderCode == newOrderCode
      ensures taskId == old(taskId) && actionCode == old(actionCode)
      ensures resultCode == old(resultCode) && actionData == old(actionData)
      ensures folderName == old(folderName) && resultString == old(resultString)
      ensures lastRunDate == old(lastRunDate) && earliestRunDate == old(earliestRunDate)
    {
      orderCode := newOrderCode;
    }

    method SetActionCode(newActionCode: int)
      modifies this
      ensures actionCode == newActionCode
      ensures taskId == old(taskId) && orderCode == old(orderCode)
      ensures resultCode == old(resultCode) && actionData == old(actionData)
      ensures folderName == old(folderName) && resultString == old(resultString)
      ensures lastRunDate == old(lastRunDate) && earliestRunDate == old(earliestRunDate)
    {
      actionCode := newActionCode;
    }

    method SetActionData(newActionData: string)
      modifies this
      ensures actionData == newActionData
      ensures taskId == old(taskId) && orderCode == old(orderCode)
      ensures actionCode == old(actionCode) && resultCode == old(resultCode)
      ensures folderName == old(folderName) && resultString == old(resultString)
      ensures lastRunDate == old(lastRunDate) && earliestRunDate == old(earliestRunDate)
    {
      actionData := newActionData;
    }

    method SetFolderName(newFolderName: string)
      modifies this
      ensures folderName == newFolderName
      ensures taskId == old(taskId) && orderCode == old(orderCode)
      ensures actionCode == old(actionCode) && resultCode == old(resultCode)
      ensures actionData == old(actionData) && resultString == old(resultString)
      ensures lastRunDate == old(lastRunDate) && earliestRunDate == old(earliestRunDate)
    {
      folderName := newFolderName;
    }

    method SetResultCode(newResultCode: int)
      modifies this
      ensures resultCode == newResultCode
      ensures taskId == old(taskId) && orderCode == old(orderCode)
      ensures actionCode == old(actionCode) && actionData == old(actionData)
      ensures folderName == old(folderName) && resultString == old(resultString)
      ensures lastRunDate == old(lastRunDate) && earliestRunDate == old(earliestRunDate)
    {
      resultCode := newResultCode;
    }

    method SetResultString(newResultString: string)
      modifies this
      ensures resultString == newResultString
      ensures taskId == old(taskId) && orderCode == old(orderCode)
      ensures actionCode == old(actionCode) && resultCode == old(resultCode)
      ensures actionData == old(actionData) && folderName == old(folderName)
      ensures lastRunDate == old(lastRunDate) && earliestRunDate == old(earliestRunDate)
    {
      resultString := newResultString;
    }

    method SetLastRunDate(newLastRunDate: Option<Date>)
      modifies this
      ensures lastRunDate == newLastRunDate
      ensures taskId == old(taskId) && orderCode == old(orderCode)
      ensures actionCode == old(actionCode) && resultCode == old(resultCode)
      ensures actionData == old(actionData) && folderName == old(folderName)
      ensures resultString == old(resultString) && earliestRunDate == old(earliestRunDate)
    {
      lastRunDate := newLastRunDate;
    }

    method SetEarliestRunDate(newEarliestRunDate: Option<Date>)
      modifies this
      ensures earliestRunDate == newEarliestRunDate
      ensures taskId == old(taskId) && orderCode == old(orderCode)
      ensures actionCode == old(actionCode) && resultCode == old(resultCode)
      ensures actionData == old(actionData) && folderName == old(folderName)
      ensures resultString == old(resultString) && lastRunDate == old(lastRunDate)
    {
      earliestRunDate := newEarliestRunDate;
    }

    /**
     * `taskCompare:`, the sort order of the dispatch queue: this task sorts
     * before `other` exactly when its order code is lower, after it exactly
     * when higher, and the two tie otherwise.
     */
    function TaskCompare(other: VTask): (r: Ordering)
      reads this, other
      ensures r == Ascending <==> orderCode < other.orderCode
      ensures r == Descending <==> orderCode > other.orderCode
    {
      if orderCode < other.orderCode then Ascending
      else if orderCode > other.orderCode then Descending
      else Same
    }

    /**
     * `compareForUniqueness:`, whether two tasks ask for the same thing: a
     * task performing an action duplicates exactly the tasks that perform the
     * same action on the same action data.
     */
    predicate CompareForUniqueness(other: VTask)
      reads this, other
      ensures ActionOf(actionCode).Some? ==>
                (CompareForUniqueness(other) <==>
                   ActionOf(other.actionCode) == ActionOf(actionCode) && other.actionData == actionData)
    {
      actionCode == other.actionCode && actionData == other.actionData
    }

    /** The task's order code is the one named after its action. */
    predicate WellCoded()
      reads this
    {
      ActionOf(actionCode).Some? && orderCode == OrderCodeOf(ActionOf(actionCode).value)
    }

    /** A well-coded task performing `a`. */
    predicate Performs(a: Action)
      reads this
    {
      WellCoded() && actionCode == ActionCode(a)
    }
  }

  /** `taskCompare:` is a total preorder: flipping the operands flips the result. */
  lemma TaskCompareFlip(x: VTask, y: VTask)
    ensures x.TaskCompare(y) == Ascending <==> y.TaskCompare(x) == Descending
    ensures x.TaskCompare(y) == Same <==> y.TaskCompare(x) == Same
  {
  }

  /**
   * `compareForUniqueness:` is an equivalence, and two well-coded tasks it
   * identifies tie under `taskCompare:`.
   */
  lemma UniquenessIsEquivalence(x: VTask, y: VTask, z: VTask)
    ensures x.CompareForUniqueness(x)
    ensures x.CompareForUniqueness(y) ==> y.CompareForUniqueness(x)
    ensures x.CompareForUniqueness(y) && y.CompareForUniqueness(z) ==> x.CompareForUniqueness(z)
    ensures x.WellCoded() && y.WellCoded() && x.CompareForUniqueness(y) ==> x.TaskCompare(y) == Same
  {
  }

  // ---------------------------------------------------------------------------
  // The dispatch order
  // ---------------------------------------------------------------------------

  /** A queue in dispatch order: no task sorts after the one following it. */
  predicate DispatchOrdered(q: seq<VTask>)
    reads q
  {
    forall k :: 0 < k < |q| ==> q[k - 1].TaskCompare(q[k]) != Descending
  }

  /** Order codes never decrease along a queue in dispatch order. */
  lemma {:induction false} OrderCodesAscend(q: seq<VTask>, i: nat, j: nat)
    requires DispatchOrdered(q)
    requires i <= j < |q|
    ensures q[i].orderCode <= q[j].orderCode
    decreases j - i
  {
    if i < j {
      OrderCodesAscend(q, i, j - 1);
      assert q[j - 1].TaskCompare(q[j]) != Descending;
    }
  }

  /** In a queue in dispatch order, a task with a lower order code runs earlier. */
  lemma LowerRunsEarlier(q: seq<VTask>, i: nat, j: nat)
    requires DispatchOrdered(q)
    requires i < |q| && j < |q|
    requires q[i].orderCode < q[j].orderCode
    ensures i < j
  {
    if j <= i {
      OrderCodesAscend(q, j, i);
    }
  }

  /**
   * In a queue of well-coded tasks in dispatch order, every task performing
   * `a` runs before every task performing `b` whose order code is higher.
   */
  lemma ActionRunsBefore(q: seq<VTask>, i: nat, j: nat, a: Action, b: Action)
    requires DispatchOrdered(q)
    requires i < |q| && j < |q|
    requires q[i].Performs(a) && q[j].Performs(b)
    requires OrderCodeOf(a) < OrderCodeOf(b)
    ensures i < j
  {
    ActionCodeRoundTrip(a, q[i].actionCode);
    ActionCodeRoundTrip(b, q[j].actionCode);
    LowerRunsEarlier(q, i, j);
  }

  /** Moderator actions run before joining and posting. */
  lemma ModeratorBeforeJoinAndPost(q: seq<VTask>, i: nat, j: nat, m: Action, b: Action)
    requires DispatchOrdered(q)
    requires i < |q| && j < |q|
    requires IsModeratorAction(m) && b in {JoinFolder, PostMessages}
    requires q[i].Performs(m) && q[j].Performs(b)
    ensures i < j
  {
    ActionRunsBefore(q, i, j, m, b);
  }

  /** A folder is joined before anything that involves it: posting, filing, withdrawing. */
  lemma JoinBeforeFolderWork(q: seq<VTask>, i: nat, j: nat, b: Action)
    requires DispatchOrdered(q)
    requires i < |q| && j < |q|
    requires b in {PostMessages, FileMessages, WithdrawMessage}
    requires q[i].Performs(JoinFolder) && q[j].Performs(b)
    ensures i < j
  {
    ActionRunsBefore(q, i, j, JoinFolder, b);
  }

  /** Messages are posted before a folder is resigned, so both fit in one connect. */
  lemma PostBeforeResign(q: seq<VTask>, i: nat, j: nat)
    requires DispatchOrdered(q)
    requires i < |q| && j < |q|
    requires q[i].Performs(PostMessages) && q[j].Performs(ResignFolder)
    ensures i < j
  {
    ActionRunsBefore(q, i, j, PostMessages, ResignFolder);
  }

  /** SetCIXBack runs before every other action. */
  lemma SetCIXBackFirst(q: seq<VTask>, i: nat, j: nat, b: Action)
    requires DispatchOrdered(q)
    requires i < |q| && j < |q|
    requires b != SetCIXBack
    requires q[i].Performs(SetCIXBack) && q[j].Performs(b)
    ensures i < j
  {
    ActionRunsBefore(q, i, j, SetCIXBack, b);
  }

  /** The heavy work comes late: the conference list is read after new messages. */
  lemma ConfListAfterRead(q: seq<VTask>, i: nat, j: nat)
    requires DispatchOrdered(q)
    requires i < |q| && j < |q|
    requires q[i].Performs(ReadMessages) && q[j].Performs(ConfList)
    ensures i < j
  {
    ActionRunsBefore(q, i, j, ReadMessages, ConfList);
  }

  /** Feeds are refreshed after every other action. */
  lemma GetRSSLast(q: seq<VTask>, i: nat, j: nat, a: Action)
    requires DispatchOrdered(q)
    requires i < |q| && j < |q|
    requires a != GetRSS
    requires q[i].Performs(a) && q[j].Performs(GetRSS)
    ensures i < j
  {
    ActionRunsBefore(q, i, j, a, GetRSS);
  }

  /**
   * Uploads and downloads share an order code: the rule orders neither
   * before the other, and both queues of one of each are in dispatch order.
   */
  lemma TransfersTie(u: VTask, d: VTask)
    requires u.Performs(FileUpload) && d.Performs(FileDownload)
    ensures u.TaskCompare(d) == Same
    ensures DispatchOrdered([u, d]) && DispatchOrdered([d, u])
  {
    ActionCodeRoundTrip(FileUpload, u.actionCode);
    ActionCodeRoundTrip(FileDownload, d.actionCode);
  }
}

/**
 * NBacklog's `Ticket` (a Backlog issue): the parameters it sends when created or updated, its
 * shared-file list, and the guard that refuses comment and shared-file requests for a ticket
 * that was not read from the server.
 */
module Tickets {
  import opened Wrappers
  import opened Exceptions
  import opened Strings
  import opened Dates
  import opened Sequences
  import opened Query
  import opened Items

  const NotFromServerMessage := "ticket retrieved not from the server"

  /** A custom field's value; `jsonValue` stands for what `ToJsonValue()` returns. */
  datatype CustomFieldValue = CustomFieldValue(id: int, jsonValue: string, otherValue: Option<string>)

  const CustomFieldPrefix := "customField_"

  /** The names a ticket's parameters are sent under; `Wire()` is the string the source passes. */
  datatype TicketField =
    | Summary | IssueTypeId | PriorityId
    | Description | DueDate | StartDate
    | CategoryId | VersionId | MilestoneId | AttachmentId
    | ParentIssueId | EstimatedHours | ActualHours | AssigneeId
    | StatusId | ResolutionId
    | CustomField(fieldId: int)
    | CustomFieldOtherValue(fieldId: int)
  {
    predicate IsCustom() {
      CustomField? || CustomFieldOtherValue?
    }

    function Wire(): string {
      match this
      case Summary => "summary"
      case IssueTypeId => "issueTypeId"
      case PriorityId => "priorityId"
      case Description => "description"
      case DueDate => "dueDate"
      case StartDate => "startDate"
      case CategoryId => "categoryId[]"
      case VersionId => "versionId[]"
      case MilestoneId => "milestoneId[]"
      case AttachmentId => "attachmentId[]"
      case ParentIssueId => "parentIssueId"
      case EstimatedHours => "estimatedHours"
      case ActualHours => "actualHours"
      case AssigneeId => "assigneeId"
      case StatusId => "statusId"
      case ResolutionId => "resolutionId"
      case CustomField(id) => CustomFieldPrefix + DecimalString(id)
      case CustomFieldOtherValue(id) => CustomFieldPrefix + DecimalString(id) + "_otherValue"
    }
  }

  /** The entries one custom field contributes: its value, then its other-value if it has one. */
  function FieldParameters(field: CustomFieldValue): (r: seq<QueryParam<TicketField>>)
    ensures |r| == (if field.otherValue.Some? then 2 else 1)
    ensures r[0] == QueryParam(CustomField(field.id), Text(field.jsonValue), None)
    ensures field.otherValue.Some? ==>
      r[1] == QueryParam(CustomFieldOtherValue(field.id), Text(field.otherValue.value), None)
  {
    [QueryParam(CustomField(field.id), Text(field.jsonValue), None)]
    + (if field.otherValue.Some? then [QueryParam(CustomFieldOtherValue(field.id), Text(field.otherValue.value), None)] else [])
  }

  /** The entries of all custom fields, field by field in order. */
  function CustomFieldParameters(fields: seq<CustomFieldValue>): (r: seq<QueryParam<TicketField>>)
    ensures |fields| <= |r| <= 2 * |fields|
    ensures forall i :: 0 <= i < |r| ==> r[i].flag.None? && r[i].name.IsCustom()
  {
    if fields == [] then []
    else CustomFieldParameters(fields[..|fields| - 1]) + FieldParameters(fields[|fields| - 1])
  }

  /** Custom-field entries of a concatenation are the concatenation of the entries. */
  lemma {:induction false} CustomFieldParametersAppend(fields: seq<CustomFieldValue>, more: seq<CustomFieldValue>)
    ensures CustomFieldParameters(fields + more) == CustomFieldParameters(fields) + CustomFieldParameters(more)
    decreases |more|
  {
    if more != [] {
      var init := more[..|more| - 1];
      assert (fields + more)[..|fields + more| - 1] == fields + init;
      CustomFieldParametersAppend(fields, init);
    } else {
      assert fields + more == fields;
    }
  }

  /** Each field contributes exactly its own entries, in the field's place. */
  lemma CustomFieldParametersLayout(before: seq<CustomFieldValue>, field: CustomFieldValue, after: seq<CustomFieldValue>)
    ensures CustomFieldParameters(before + [field] + after)
         == CustomFieldParameters(before) + FieldParameters(field) + CustomFieldParameters(after)
  {
    CustomFieldParametersAppend(before + [field], after);
    CustomFieldParametersAppend(before, [field]);
    assert [field][..0] == [];
  }

  /** One iteration of the `foreach` over the custom fields: the field's value, then its other-value. */
  method AddCustomField(parameters: QueryParameters<TicketField>, field: CustomFieldValue)
    modifies parameters
    ensures parameters.entries == old(parameters.entries) + FieldParameters(field)
  {
    parameters.Add(CustomField(field.id), Text(field.jsonValue), None);
    if field.otherValue.Some? {
      parameters.Add(CustomFieldOtherValue(field.id), Text(field.otherValue.value), None);
    }
  }

  /** The `foreach` over the custom fields: appends each field's entries in order. */
  method AddCustomFields(parameters: QueryParameters<TicketField>, fields: seq<CustomFieldValue>)
    modifies parameters
    ensures parameters.entries == old(parameters.entries) + CustomFieldParameters(fields)
  {
    ghost var start := parameters.entries;
    for i := 0 to |fields|
      invariant parameters.entries == start + CustomFieldParameters(fields[..i])
    {
      AddCustomField(parameters, fields[i]);
      assert fields[..i + 1][..i] == fields[..i];
    }
    assert fields[..|fields|] == fields;
  }

  /** `x?.Id.ToString() ?? ""`: empty exactly when there is no item, the id's rendering otherwise. */
  function IdText(item: Option<ItemRef>): (r: string)
    ensures item.None? <==> r == ""
    ensures item.Some? ==> ParseDecimal(r) == Some(item.value.id)
  {
    if item.None? then "" else DecimalRoundTrip(item.value.id, ""); DecimalString(item.value.id)
  }

  /** `n?.ToString() ?? ""`: empty exactly when there is no number, its rendering otherwise. */
  function NumberText(n: Option<int>): (r: string)
    ensures n.None? <==> r == ""
    ensures n.Some? ==> ParseDecimal(r) == Some(n.value)
  {
    if n.None? then "" else DecimalRoundTrip(n.value, ""); DecimalString(n.value)
  }

  datatype HttpVerb = Get | Post | Patch | Delete

  /** The comment and shared-file operations of a ticket, with the id of the item they touch. */
  datatype TicketOperation =
    | GetCommentCount
    | GetComments
    | AddComment
    | UpdateComment(commentId: int)
    | DeleteComment(commentId: int)
    | LinkSharedFiles
    | UnlinkSharedFile(fileId: int)

  datatype Endpoint = Endpoint(verb: HttpVerb, path: string)

  /**
   * The request an operation on ticket `id` is sent as, or the exception raised before any request
   * is built when the ticket was not read from the server.
   */
  function RequestEndpoint(op: TicketOperation, id: int): (r: Result<Endpoint, Exception>)
    ensures r.Failure? <==> id < 0
    ensures r.Failure? ==> r.error == InvalidOperation(NotFromServerMessage)
    ensures r.Success? ==> "/api/v2/issues/" + DecimalString(id) + "/" <= r.value.path
  {
    if id < 0 then Failure(InvalidOperation(NotFromServerMessage))
    else
      var issue := "/api/v2/issues/" + DecimalString(id) + "/";
      var e := match op
        case GetCommentCount => Endpoint(Get, issue + "comments/count")
        case GetComments => Endpoint(Get, issue + "comments")
        case AddComment => Endpoint(Post, issue + "comments")
        case UpdateComment(c) => Endpoint(Patch, issue + "comments/" + DecimalString(c))
        case DeleteComment(c) => Endpoint(Delete, issue + "comments/" + DecimalString(c))
        case LinkSharedFiles => Endpoint(Post, issue + "sharedFiles")
        case UnlinkSharedFile(f) => Endpoint(Delete, issue + "sharedFiles/" + DecimalString(f));
      assert issue <= e.path;
      Success(e)
  }

  /** The names of the entries every ticket request starts with, in order. */
  const FixedFields := [
    Summary, IssueTypeId, PriorityId, Description, DueDate, StartDate,
    CategoryId, VersionId, MilestoneId, AttachmentId,
    ParentIssueId, EstimatedHours, ActualHours, AssigneeId]

  /** Where the names of the fixed, update-only and custom entries end up in the whole list. */
  lemma NamesOfLayout(fixed: seq<QueryParam<TicketField>>, update: seq<QueryParam<TicketField>>,
                      custom: seq<QueryParam<TicketField>>)
    requires Names(fixed) == FixedFields
    requires Names(update) == [] || Names(update) == [StatusId, ResolutionId]
    requires forall i :: 0 <= i < |custom| ==> custom[i].name.IsCustom()
    ensures var ps := fixed + update + custom;
      && Names(ps[..14]) == FixedFields
      && (update != [] ==> ps[14].name == StatusId && ps[15].name == ResolutionId)
      && (StatusId in Names(ps) <==> update != [])
      && (ResolutionId in Names(ps) <==> update != [])
      && forall i :: 14 + |update| <= i < |ps| ==> ps[i].name.IsCustom()
  {
    var ps := fixed + update + custom;
    assert ps[..14] == fixed;
    NamesAppend(fixed + update, custom);
    NamesAppend(fixed, update);
    assert StatusId !in Names(custom) && ResolutionId !in Names(custom);
    assert forall i :: 14 + |update| <= i < |ps| ==> ps[i] == custom[i - 14 - |update|];
  }

  /** A list whose first three entries are flagged and whose later ones are not. */
  lemma FlagsOfLayout(head: seq<QueryParam<TicketField>>, rest: seq<QueryParam<TicketField>>)
    requires |head| == 3
    ensures var ps := head + rest;
      && ps[0].flag == head[0].flag && ps[1].flag == head[1].flag && ps[2].flag == head[2].flag
      && ((forall i :: 0 <= i < |rest| ==> rest[i].flag.None?) ==> forall i :: 3 <= i < |ps| ==> ps[i].flag.None?)
  {
    assert forall i :: 3 <= i < |head + rest| ==> (head + rest)[i] == rest[i - 3];
  }

  /** Where the detail and custom entries end up in the whole list. */
  lemma ValuesOfLayout(head: seq<QueryParam<TicketField>>, details: seq<QueryParam<TicketField>>,
                       update: seq<QueryParam<TicketField>>, custom: seq<QueryParam<TicketField>>)
    ensures var ps := head + details + update + custom;
      && ps[|head| + |details| + |update|..] == custom
      && forall i :: 0 <= i < |details| ==> ps[|head| + i] == details[i]
  {
    var ps := head + details + update + custom;
    assert forall i :: 0 <= i < |details| ==> ps[|head| + i] == details[i];
  }

  class Ticket {
    const id: int
    var key: Option<string>
    var issueType: Option<ItemRef>
    var summary: Option<string>
    var description: Option<string>
    var resolution: Option<ItemRef>
    var priority: Option<ItemRef>
    var status: Option<ItemRef>
    var assignee: Option<ItemRef>
    var categories: seq<ItemRef>
    var versions: seq<ItemRef>
    var milestones: seq<ItemRef>
    var startDate: Option<DateTime>
    var dueDate: Option<DateTime>
    /** The `ToString()` rendering of the `double?` hour counts. */
    var estimatedHours: Option<string>
    var actualHours: Option<string>
    var parentTicketId: Option<int>
    var customFields: Option<seq<CustomFieldValue>>
    var attachments: seq<ItemRef>
    var sharedFiles: seq<SharedFile>

    /** The fields every public constructor leaves at their defaults. */
    ghost predicate HasDefaultDetails()
      reads this
    {
      && description.None? && resolution.None? && status.None? && assignee.None?
      && categories == [] && versions == [] && milestones == [] && attachments == []
      && startDate.None? && dueDate.None? && estimatedHours.None? && actualHours.None?
      && parentTicketId.None? && customFields.None? && sharedFiles == []
    }

    /** `Ticket(int id)` */
    constructor (id: int)
      ensures this.id == id && key.None? && summary.None? && issueType.None? && priority.None?
      ensures HasDefaultDetails()
    {
      this.id := id;
      key, summary, issueType, priority := None, None, None, None;
      description, resolution, status, assignee := None, None, None, None;
      categories, versions, milestones, attachments := [], [], [], [];
      startDate, dueDate, estimatedHours, actualHours := None, None, None, None;
      parentTicketId, customFields, sharedFiles := None, None, [];
    }

    /** `Ticket(string key)`: a ticket referred to by key, not read from the server. */
    constructor FromKey(key: string)
      ensures id == NotFromServerId && this.key == Some(key)
      ensures summary.None? && issueType.None? && priority.None?
      ensures HasDefaultDetails()
    {
      id := NotFromServerId;
      this.key := Some(key);
      summary, issueType, priority := None, None, None;
      description, resolution, status, assignee := None, None, None, None;
      categories, versions, milestones, attachments := [], [], [], [];
      startDate, dueDate, estimatedHours, actualHours := None, None, None, None;
      parentTicketId, customFields, sharedFiles := None, None, [];
    }

    /** `Ticket(string summary, TicketType type, Priority priority)`: a ticket to be created. */
    constructor Draft(summary: string, issueType: ItemRef, priority: ItemRef)
      ensures id == NotFromServerId && key.None?
      ensures this.summary == Some(summary) && this.issueType == Some(issueType) && this.priority == Some(priority)
      ensures HasDefaultDetails()
    {
      id := NotFromServerId;
      key := None;
      this.summary, this.issueType, this.priority := Some(summary), Some(issueType), Some(priority);
      description, resolution, status, assignee := None, None, None, None;
      categories, versions, milestones, attachments := [], [], [], [];
      startDate, dueDate, estimatedHours, actualHours := None, None, None, None;
      parentTicketId, customFields, sharedFiles := None, None, [];
    }

    /** The three entries that carry the `toCreate` flag. */
    function HeadParameters(toCreate: bool): (r: seq<QueryParam<TicketField>>)
      reads this
      requires issueType.Some? && priority.Some?
      ensures |r| == 3 && forall i :: 0 <= i < 3 ==> r[i].flag == Some(toCreate)
    {
      [ QueryParam(Summary, TextOrNull(summary), Some(toCreate)),
        QueryParam(IssueTypeId, Number(issueType.value.id), Some(toCreate)),
        QueryParam(PriorityId, Number(priority.value.id), Some(toCreate)) ]
    }

    /** The entries sent on every request after the flagged ones, absent values as "". */
    function DetailParameters(): (r: seq<QueryParam<TicketField>>)
      reads this
      ensures |r| == 11 && forall i :: 0 <= i < 11 ==> r[i].flag.None?
    {
      DescriptionAndDates() + ItemLists() + OptionalNumbers()
    }

    function DescriptionAndDates(): (r: seq<QueryParam<TicketField>>)
      reads this
    {
      [ QueryParam(Description, Text(description.GetOr("")), None),
        QueryParam(DueDate, Text(FullDateOrEmpty(dueDate)), None),
        QueryParam(StartDate, Text(FullDateOrEmpty(startDate)), None) ]
    }

    function ItemLists(): (r: seq<QueryParam<TicketField>>)
      reads this
    {
      [ QueryParam(CategoryId, IdList(Ids(categories)), None),
        QueryParam(VersionId, IdList(Ids(versions)), None),
        QueryParam(MilestoneId, IdList(Ids(milestones)), None),
        QueryParam(AttachmentId, IdList(Ids(attachments)), None) ]
    }

    function OptionalNumbers(): (r: seq<QueryParam<TicketField>>)
      reads this
    {
      [ QueryParam(ParentIssueId, Text(NumberText(parentTicketId)), None),
        QueryParam(EstimatedHours, Text(estimatedHours.GetOr("")), None),
        QueryParam(ActualHours, Text(actualHours.GetOr("")), None),
        QueryParam(AssigneeId, Text(IdText(assignee)), None) ]
    }

    /** The entries only an update sends. */
    function UpdateParameters(): (r: seq<QueryParam<TicketField>>)
      reads this
      ensures |r| == 2 && r[0].flag.None? && r[1].flag.None?
    {
      [ QueryParam(StatusId, Text(IdText(status)), None),
        QueryParam(ResolutionId, Text(IdText(resolution)), None) ]
    }

    function CustomParameters(): (r: seq<QueryParam<TicketField>>)
      reads this
    {
      if customFields.Some? then CustomFieldParameters(customFields.value) else []
    }

    /**
     * What `ToApiParameters(toCreate)` builds: the fixed entries, then the custom fields' entries;
     * a ticket without a type or a priority throws on their `Id`.
     */
    function ApiParameters(toCreate: bool): (r: Result<seq<QueryParam<TicketField>>, Exception>)
      reads this
      ensures r.Failure? <==> issueType.None? || priority.None?
      ensures r.Failure? ==> r.error == NullReference
      ensures r.Success? ==> |r.value| == (if toCreate then 14 else 16) + |CustomParameters()|
    {
      if issueType.None? || priority.None? then Failure(NullReference)
      else Success(HeadParameters(toCreate) + DetailParameters()
                   + (if toCreate then [] else UpdateParameters()) + CustomParameters())
    }

    /** The fixed entries' names, group by group. */
    lemma FixedNamesInOrder(toCreate: bool)
      requires issueType.Some? && priority.Some?
      ensures Names(HeadParameters(toCreate) + DetailParameters()) == FixedFields
    {
      var head, details := HeadParameters(toCreate), DetailParameters();
      NamesAppend(head, details);
      NamesAppend(DescriptionAndDates() + ItemLists(), OptionalNumbers());
      NamesAppend(DescriptionAndDates(), ItemLists());
      assert Names(head) == FixedFields[..3];
      assert Names(DescriptionAndDates()) == FixedFields[3..6];
      assert Names(ItemLists()) == FixedFields[6..10];
      assert Names(OptionalNumbers()) == FixedFields[10..];
    }

    /**
     * The entries start with the fixed names in order; status and resolution follow them exactly
     * when updating; every later entry is a custom field's.
     */
    lemma ApiParametersNames(toCreate: bool)
      requires issueType.Some? && priority.Some?
      ensures var ps := ApiParameters(toCreate).value;
        var n := if toCreate then 14 else 16;
        && Names(ps[..14]) == FixedFields
        && (!toCreate ==> ps[14].name == StatusId && ps[15].name == ResolutionId)
        && (StatusId in Names(ps) <==> !toCreate)
        && (ResolutionId in Names(ps) <==> !toCreate)
        && forall i :: n <= i < |ps| ==> ps[i].name.IsCustom()
    {
      var fixed := HeadParameters(toCreate) + DetailParameters();
      var update := if toCreate then [] else UpdateParameters();
      FixedNamesInOrder(toCreate);
      assert Names(update) == if toCreate then [] else [StatusId, ResolutionId];
      NamesOfLayout(fixed, update, CustomParameters());
    }

    /** Only the first three entries carry the `toCreate` flag; every later one carries none. */
    lemma ApiParametersFlags(toCreate: bool)
      requires issueType.Some? && priority.Some?
      ensures var ps := ApiParameters(toCreate).value;
        && ps[0].flag == ps[1].flag == ps[2].flag == Some(toCreate)
        && forall i :: 3 <= i < |ps| ==> ps[i].flag.None?
    {
      var update := if toCreate then [] else UpdateParameters();
      FlagsOfLayout(HeadParameters(toCreate), DetailParameters() + update + CustomParameters());
    }

    /** The request ends with the custom fields' entries, none when there are none. */
    lemma ApiParametersCustomTail(toCreate: bool)
      requires issueType.Some? && priority.Some?
      ensures var ps := ApiParameters(toCreate).value;
        var n := if toCreate then 14 else 16;
        ps[n..] == (if customFields.Some? then CustomFieldParameters(customFields.value) else [])
    {
      var update := if toCreate then [] else UpdateParameters();
      ValuesOfLayout(HeadParameters(toCreate), DetailParameters(), update, CustomParameters());
    }

    /** Every request sends the description and the dates, as "" when absent. */
    lemma ApiParametersDescriptionAndDates(toCreate: bool)
      requires issueType.Some? && priority.Some?
      ensures var ps := ApiParameters(toCreate).value;
        && ps[3].value == Text(description.GetOr(""))
        && ps[4].value == Text(FullDateOrEmpty(dueDate))
        && ps[5].value == Text(FullDateOrEmpty(startDate))
    {
      var update := if toCreate then [] else UpdateParameters();
      var a, b, c := DescriptionAndDates(), ItemLists(), OptionalNumbers();
      ValuesOfLayout(HeadParameters(toCreate), a + b + c, update, CustomParameters());
      assert (a + b + c)[..3] == a;
    }

    /** Every request sends the four id lists, empty when there are no items. */
    lemma ApiParametersItemLists(toCreate: bool)
      requires issueType.Some? && priority.Some?
      ensures var ps := ApiParameters(toCreate).value;
        && ps[6].value == IdList(Ids(categories))
        && ps[7].value == IdList(Ids(versions))
        && ps[8].value == IdList(Ids(milestones))
        && ps[9].value == IdList(Ids(attachments))
    {
      var update := if toCreate then [] else UpdateParameters();
      var a, b, c := DescriptionAndDates(), ItemLists(), OptionalNumbers();
      ValuesOfLayout(HeadParameters(toCreate), a + b + c, update, CustomParameters());
      assert (a + b + c)[3..7] == b;
    }

    /** Every request sends the parent, the hours and the assignee, as "" when absent. */
    lemma ApiParametersOptionalNumbers(toCreate: bool)
      requires issueType.Some? && priority.Some?
      ensures var ps := ApiParameters(toCreate).value;
        && ps[10].value == Text(NumberText(parentTicketId))
        && ps[11].value == Text(estimatedHours.GetOr(""))
        && ps[12].value == Text(actualHours.GetOr(""))
        && ps[13].value == Text(IdText(assignee))
    {
      var update := if toCreate then [] else UpdateParameters();
      var a, b, c := DescriptionAndDates(), ItemLists(), OptionalNumbers();
      ValuesOfLayout(HeadParameters(toCreate), a + b + c, update, CustomParameters());
      assert (a + b + c)[7..] == c;
    }

    /** The unflagged `Add` calls every request makes, after the three flagged ones. */
    method AddDetailParameters(parameters: QueryParameters<TicketField>)
      modifies parameters
      ensures parameters.entries == old(parameters.entries) + DetailParameters()
    {
      AddDescriptionAndDates(parameters);
      AddItemLists(parameters);
      AddOptionalNumbers(parameters);
    }

    method AddDescriptionAndDates(parameters: QueryParameters<TicketField>)
      modifies parameters
      ensures parameters.entries == old(parameters.entries) + DescriptionAndDates()
    {
      parameters.Add(Description, Text(description.GetOr("")), None);
      parameters.Add(DueDate, Text(FullDateOrEmpty(dueDate)), None);
      parameters.Add(StartDate, Text(FullDateOrEmpty(startDate)), None);
    }

    method AddItemLists(parameters: QueryParameters<TicketField>)
      modifies parameters
      ensures parameters.entries == old(parameters.entries) + ItemLists()
    {
      parameters.AddRange(CategoryId, Ids(categories));
      parameters.AddRange(VersionId, Ids(versions));
      parameters.AddRange(MilestoneId, Ids(milestones));
      parameters.AddRange(AttachmentId, Ids(attachments));
    }

    method AddOptionalNumbers(parameters: QueryParameters<TicketField>)
      modifies parameters
      ensures parameters.entries == old(parameters.entries) + OptionalNumbers()
    {
      parameters.Add(ParentIssueId, Text(NumberText(parentTicketId)), None);
      parameters.Add(EstimatedHours, Text(estimatedHours.GetOr("")), None);
      parameters.Add(ActualHours, Text(actualHours.GetOr("")), None);
      parameters.Add(AssigneeId, Text(IdText(assignee)), None);
    }

    /** The `Add` calls only an update makes. */
    method AddUpdateParameters(parameters: QueryParameters<TicketField>)
      modifies parameters
      ensures parameters.entries == old(parameters.entries) + UpdateParameters()
    {
      parameters.Add(StatusId, Text(IdText(status)), None);
      parameters.Add(ResolutionId, Text(IdText(resolution)), None);
    }

    /** `ToApiParameters`: builds the entries of `ApiParameters` by successive `Add` calls. */
    method ToApiParameters(toCreate: bool) returns (r: Result<QueryParameters<TicketField>, Exception>)
      ensures ApiParameters(toCreate).Failure? ==> r == Failure(ApiParameters(toCreate).error)
      ensures ApiParameters(toCreate).Success? ==>
        r.Success? && fresh(r.value) && r.value.entries == ApiParameters(toCreate).value
    {
      var parameters := new QueryParameters<TicketField>();
      parameters.Add(Summary, TextOrNull(summary), Some(toCreate));
      if issueType.None? {
        return Failure(NullReference);
      }
      parameters.Add(IssueTypeId, Number(issueType.value.id), Some(toCreate));
      if priority.None? {
        return Failure(NullReference);
      }
      parameters.Add(PriorityId, Number(priority.value.id), Some(toCreate));
      assert parameters.entries == HeadParameters(toCreate);
      AddDetailParameters(parameters);
      if !toCreate {
        AddUpdateParameters(parameters);
      }
      ghost var fixed := HeadParameters(toCreate) + DetailParameters() + (if toCreate then [] else UpdateParameters());
      assert parameters.entries == fixed;
      if customFields.Some? {
        AddCustomFields(parameters, customFields.value);
      }
      assert parameters.entries == fixed + CustomParameters();
      return Success(parameters);
    }

    /**
     * `LinkSharedFilesAsync`, given the files the server reports as linked (`None` for a response
     * without content): they are appended to `sharedFiles`.
     */
    method LinkSharedFilesAsync(content: Option<seq<SharedFile>>) returns (r: Result<seq<SharedFile>, Exception>)
      modifies this`sharedFiles
      ensures id < 0 ==> r == Failure(InvalidOperation(NotFromServerMessage)) && sharedFiles == old(sharedFiles)
      ensures id >= 0 && content.None? ==> r == Failure(NullReference) && sharedFiles == old(sharedFiles)
      ensures id >= 0 && content.Some? ==> r == Success(content.value) && sharedFiles == old(sharedFiles) + content.value
    {
      var endpoint := RequestEndpoint(LinkSharedFiles, id);
      if endpoint.Failure? {
        return Failure(endpoint.error);
      }
      if content.None? {
        return Failure(NullReference);
      }
      if |content.value| > 0 {
        sharedFiles := sharedFiles + content.value;
      }
      assert content.value == [] ==> sharedFiles + content.value == sharedFiles;
      return Success(content.value);
    }

    /**
     * `UnlinkSharedFilesAsync`, given the file the server reports as unlinked (`None` for a
     * response without content): every occurrence of it leaves `sharedFiles`.
     */
    method UnlinkSharedFilesAsync(sharedFile: SharedFile, content: Option<SharedFile>)
      returns (r: Result<Option<SharedFile>, Exception>)
      modifies this`sharedFiles
      ensures id < 0 ==> r == Failure(InvalidOperation(NotFromServerMessage)) && sharedFiles == old(sharedFiles)
      ensures id >= 0 ==> r == Success(content)
      ensures id >= 0 && content.None? ==> sharedFiles == old(sharedFiles)
      ensures id >= 0 && content.Some? ==> sharedFiles == Except(old(sharedFiles), [content.value])
    {
      var endpoint := RequestEndpoint(UnlinkSharedFile(sharedFile.id), id);
      if endpoint.Failure? {
        return Failure(endpoint.error);
      }
      if content.Some? {
        sharedFiles := Except(sharedFiles, [content.value]);
      }
      return Success(content);
    }
  }
}

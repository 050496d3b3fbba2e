/**
 * NBacklog's `Milestone` (a Backlog version): its constructors, the truncation of the server's
 * dates to calendar days, and the parameters it sends when created or updated.
 */
module Milestones {
  import opened Wrappers
  import opened Dates
  import opened Query
  import opened Items

  /** The server's milestone record as deserialised. */
  datatype MilestoneData = MilestoneData(
    id: int,
    projectId: int,
    name: Option<string>,
    description: Option<string>,
    startDate: Option<DateTime>,
    releaseDueDate: Option<DateTime>,
    archived: bool,
    displayOrder: int)

  /** The names a milestone's parameters are sent under; `Wire()` is the string the source passes. */
  datatype MilestoneField = Name | Description | StartDate | ReleaseDueDate
  {
    function Wire(): string {
      match this
      case Name => "name"
      case Description => "description"
      case StartDate => "startDate"
      case ReleaseDueDate => "releaseDueDate"
    }
  }

  class Milestone {
    const id: int
    var name: Option<string>
    var description: Option<string>
    var startDate: Option<DateTime>
    var dueDate: Option<DateTime>
    var isArchived: bool
    const displayOrder: int

    /** `Milestone(int id)`: a reference to a milestone by id, every property unset. */
    constructor (id: int)
      ensures this.id == id && name.None? && description.None?
      ensures startDate.None? && dueDate.None? && !isArchived && displayOrder == 0
    {
      this.id := id;
      name, description, startDate, dueDate := None, None, None, None;
      isArchived := false;
      displayOrder := 0;
    }

    /**
     * `Milestone(string name)`: a milestone to be created. Its id is the sentinel the
     * "not from server" guards test with `Id < 0`.
     */
    constructor FromName(name: string)
      ensures id == NotFromServerId && id < 0
      ensures this.name == Some(name) && description.None?
      ensures startDate.None? && dueDate.None? && !isArchived && displayOrder == 0
    {
      id := NotFromServerId;
      this.name := Some(name);
      description, startDate, dueDate := None, None, None;
      isArchived := false;
      displayOrder := 0;
    }

    /** `Milestone(_Milestone data, Project project)`: the dates keep only their calendar day. */
    constructor FromData(data: MilestoneData)
      ensures id == data.id && name == data.name && description == data.description
      ensures isArchived == data.archived && displayOrder == data.displayOrder
      ensures startDate.Some? <==> data.startDate.Some?
      ensures startDate.Some? ==> startDate.value.date == data.startDate.value.date && startDate.value.secondOfDay == 0
      ensures dueDate.Some? <==> data.releaseDueDate.Some?
      ensures dueDate.Some? ==> dueDate.value.date == data.releaseDueDate.value.date && dueDate.value.secondOfDay == 0
    {
      id := data.id;
      name := data.name;
      description := data.description;
      startDate := DatePartOf(data.startDate);
      dueDate := DatePartOf(data.releaseDueDate);
      isArchived := data.archived;
      displayOrder := data.displayOrder;
    }

    /**
     * What `ToApiParameters(toCreate)` builds: the name, flagged with `toCreate`, then the
     * description and the two dates, unflagged.
     */
    function ApiParameters(toCreate: bool): (r: seq<QueryParam<MilestoneField>>)
      reads this
      ensures Names(r) == [Name, Description, StartDate, ReleaseDueDate]
      ensures r[0].flag == Some(toCreate) && r[1].flag.None? && r[2].flag.None? && r[3].flag.None?
      ensures r[0].value == TextOrNull(name)
    {
      var r := [ QueryParam(Name, TextOrNull(name), Some(toCreate)),
                 QueryParam(Description, Text(description.GetOr("")), None),
                 QueryParam(StartDate, Text(FullDateOrEmpty(startDate)), None),
                 QueryParam(ReleaseDueDate, Text(FullDateOrEmpty(dueDate)), None) ];
      assert Names(r) == [Name, Description, StartDate, ReleaseDueDate];
      r
    }

    /**
     * A missing description or date is sent as ""; a present date as its `full-date`
     * (section 5.6 of RFC 3339), which reads back as the milestone's calendar day.
     */
    lemma ApiParametersValues(toCreate: bool)
      ensures var ps := ApiParameters(toCreate);
        && ps[1].value.Text? && ps[2].value.Text? && ps[3].value.Text?
        && (description.None? ==> ps[1].value.text == "")
        && (description.Some? ==> ps[1].value.text == description.value)
        && (startDate.None? <==> ps[2].value.text == "")
        && (startDate.Some? ==> |ps[2].value.text| == 10 && ParseFullDate(ps[2].value.text) == Some(startDate.value.date))
        && (dueDate.None? <==> ps[3].value.text == "")
        && (dueDate.Some? ==> |ps[3].value.text| == 10 && ParseFullDate(ps[3].value.text) == Some(dueDate.value.date))
    {
      if startDate.Some? {
        FullDateOrEmptyReadsBack(startDate);
      }
      if dueDate.Some? {
        FullDateOrEmptyReadsBack(dueDate);
      }
    }

    /**
     * `ToApiParameters`: the four `Add` calls, in order, on a fresh builder; `HasValue ? … : ""`
     * on a date is `FullDateOrEmpty`.
     */
    method ToApiParameters(toCreate: bool) returns (parameters: QueryParameters<MilestoneField>)
      ensures fresh(parameters) && parameters.entries == ApiParameters(toCreate)
    {
      parameters := new QueryParameters<MilestoneField>();
      parameters.Add(Name, TextOrNull(name), Some(toCreate));
      parameters.Add(Description, Text(description.GetOr("")), None);
      parameters.Add(StartDate, Text(FullDateOrEmpty(startDate)), None);
      parameters.Add(ReleaseDueDate, Text(FullDateOrEmpty(dueDate)), None);
    }
  }
}

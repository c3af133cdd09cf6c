/** The sales opportunities board (src/components/Sales/SalesOpportunities.tsx):
    the opportunity list held by the screen, its search and stage filter, the
    submit handler (add or edit) and archiving, and the stage labels and colours. */
module Sales {
  import opened Domain
  import Text

  datatype OpportunityStatus = Active | Closed

  /** SalesOpportunity. The stage is kept as the text the form sends; dates the
      server would fill in are timestamps. */
  datatype Opportunity = Opportunity(
    id: string,
    title: string,
    description: Option<string>,
    clientId: Option<string>,
    potentialClientName: Option<string>,
    estimatedValue: Option<real>,
    probability: Option<int>,
    stage: string,
    source: Option<string>,
    assignedTo: Option<string>,
    expectedCloseDate: Option<string>,
    actualCloseDate: Option<string>,
    notes: Option<string>,
    status: OpportunityStatus,
    createdAt: int,
    updatedAt: int,
    clientName: Option<string>,
    assignedToName: Option<string>)

  // ---------------------------------------------------------------------------
  // Stage labels

  const StageLabels: map<string, string> := map[
    "lead" := "عميل محتمل",
    "qualified" := "مؤهل",
    "proposal" := "عرض سعر",
    "negotiation" := "تفاوض",
    "won" := "تم الفوز",
    "lost" := "فُقدت"]

  const StageColors: map<string, string> := map[
    "lead" := "bg-gray-100 text-gray-800",
    "qualified" := "bg-blue-100 text-blue-800",
    "proposal" := "bg-yellow-100 text-yellow-800",
    "negotiation" := "bg-orange-100 text-orange-800",
    "won" := "bg-green-100 text-green-800",
    "lost" := "bg-red-100 text-red-800"]

  const DefaultStageColor := "bg-gray-100 text-gray-800"

  /** getStageLabel: the six known stages are translated, any other text is shown
      as it is. */
  function StageLabel(stage: string): (r: string)
    ensures stage !in StageLabels ==> r == stage
    ensures stage in StageLabels ==> r == StageLabels[stage] && r != stage
  {
    if stage in StageLabels then StageLabels[stage] else stage
  }

  /** Different known stages get different labels. */
  lemma StageLabelsDistinct(a: string, b: string)
    requires a in StageLabels && b in StageLabels && a != b
    ensures StageLabel(a) != StageLabel(b)
  {
  }

  /** getStageColor: the six known stages have their colours, any other text gets
      the neutral one. */
  function StageColor(stage: string): (r: string)
    ensures stage !in StageColors ==> r == DefaultStageColor
    ensures stage in StageColors ==> r == StageColors[stage]
  {
    if stage in StageColors then StageColors[stage] else DefaultStageColor
  }

  /** An unknown stage is coloured like a lead. */
  lemma UnknownStageLooksLikeLead(stage: string)
    requires stage !in StageColors
    ensures StageColor(stage) == StageColor("lead")
  {
  }

  // ---------------------------------------------------------------------------
  // Filter

  /** The search (title or prospective client, ignoring case) and the stage choice. */
  predicate Keeps(o: Opportunity, term: string, stage: Choice<string>) {
    && (Text.ContainsIgnoreCase(o.title, term) || Text.ContainsIgnoreCase(o.potentialClientName.GetOr(""), term))
    && stage.Accepts(o.stage)
  }

  /** filteredOpportunities */
  function FilteredOpportunities(os: seq<Opportunity>, term: string, stage: Choice<string>): (r: seq<Opportunity>)
    ensures forall i :: 0 <= i < |r| ==> r[i] in os && Keeps(r[i], term, stage)
    ensures forall i :: 0 <= i < |os| && Keeps(os[i], term, stage) ==> os[i] in r
  {
    Filter(os, o => Keeps(o, term, stage))
  }

  /** An empty search over all stages keeps every opportunity, in order. */
  lemma NoFilterKeepsAll(os: seq<Opportunity>)
    ensures FilteredOpportunities(os, "", All) == os
  {
    forall o | o in os ensures Keeps(o, "", All) {
      Text.EmptyTermMatches(o.title);
    }
    FilterAll(os, o => Keeps(o, "", All));
  }

  // ---------------------------------------------------------------------------
  // Submit and archive

  /** The form. The numeric inputs are passed with their parsed values; an empty
      text input stands for a missing value. */
  datatype OpportunityForm = OpportunityForm(
    title: string,
    description: string,
    potentialClientName: string,
    estimatedValueText: string,
    estimatedValue: real,
    probability: int,
    stage: string,
    source: string,
    expectedCloseDate: string,
    notes: string)

  /** The record handleSubmit builds: always active, with no estimate and no close
      date when those inputs are empty, and both timestamps set to now. */
  function SavedOpportunity(id: string, form: OpportunityForm, now: int): (o: Opportunity)
    ensures o.id == id && o.status == Active
    ensures o.estimatedValue.None? <==> form.estimatedValueText == ""
    ensures o.estimatedValue.Some? ==> o.estimatedValue.value == form.estimatedValue
    ensures o.expectedCloseDate.None? <==> form.expectedCloseDate == ""
    ensures o.expectedCloseDate.Some? ==> o.expectedCloseDate.value == form.expectedCloseDate
    ensures o.title == form.title && o.stage == form.stage && o.probability == Some(form.probability)
    ensures o.description == Some(form.description) && o.potentialClientName == Some(form.potentialClientName)
    ensures o.source == Some(form.source) && o.notes == Some(form.notes)
    ensures o.clientId.None? && o.assignedTo.None? && o.actualCloseDate.None?
    ensures o.clientName.None? && o.assignedToName.None?
    ensures o.createdAt == now && o.updatedAt == now
  {
    Opportunity(
      id, form.title, Some(form.description), None, Some(form.potentialClientName),
      if form.estimatedValueText != "" then Some(form.estimatedValue) else None,
      Some(form.probability), form.stage, Some(form.source), None,
      if form.expectedCloseDate != "" then Some(form.expectedCloseDate) else None,
      None, Some(form.notes), Active, now, now, None, None)
  }

  /** Replace every opportunity with that id by `o`. */
  function ReplaceById(os: seq<Opportunity>, id: string, o: Opportunity): (r: seq<Opportunity>)
    ensures |r| == |os|
    ensures forall j :: 0 <= j < |os| ==> r[j] == if os[j].id == id then o else os[j]
  {
    seq(|os|, j requires 0 <= j < |os| => if os[j].id == id then o else os[j])
  }

  /** Drop every opportunity with that id. */
  function RemoveById(os: seq<Opportunity>, id: string): (r: seq<Opportunity>)
    ensures forall j :: 0 <= j < |r| ==> r[j].id != id && r[j] in os
    ensures forall j :: 0 <= j < |os| && os[j].id != id ==> os[j] in r
    ensures |r| == |os| - CountWhere(os, (o: Opportunity) => o.id == id)
  {
    CountWhereSplit(os, (o: Opportunity) => o.id != id, (o: Opportunity) => o.id == id);
    Filter(os, (o: Opportunity) => o.id != id)
  }

  /** The ids of the list are pairwise different. */
  predicate DistinctIds(os: seq<Opportunity>) {
    forall i, j :: 0 <= i < j < |os| ==> os[i].id != os[j].id
  }

  /** Archiving an opportunity that was just added gives back the list before. */
  lemma {:induction false} ArchiveUndoesAdd(os: seq<Opportunity>, o: Opportunity)
    requires forall j :: 0 <= j < |os| ==> os[j].id != o.id
    ensures RemoveById(os + [o], o.id) == os
  {
    var s := os + [o];
    assert s[..|s| - 1] == os;
    FilterAll(os, (x: Opportunity) => x.id != o.id);
  }

  /** Dropping opportunities keeps the ids distinct: the result is a sub-list. */
  lemma RemoveKeepsDistinct(os: seq<Opportunity>, id: string)
    requires DistinctIds(os)
    ensures DistinctIds(RemoveById(os, id))
  {
    var r := RemoveById(os, id);
    var idx := FilterIsSublist(os, (o: Opportunity) => o.id != id);
    forall i, j | 0 <= i < j < |r| ensures r[i].id != r[j].id {
      assert r[i] == os[idx[i]] && r[j] == os[idx[j]] && idx[i] < idx[j];
    }
  }

  /** The screen's opportunity list. */
  class SalesBoard {
    var opportunities: seq<Opportunity>

    ghost predicate Valid()
      reads this
    {
      DistinctIds(opportunities)
    }

    constructor()
      ensures opportunities == [] && Valid()
    {
      opportunities := [];
    }

    /** handleSubmit. Editing replaces the edited opportunity in place, keeping its
        id; adding appends the new record under a fresh id. */
    method Submit(form: OpportunityForm, editing: Option<Opportunity>, newId: string, now: int)
      requires Valid()
      requires editing.None? ==> forall j :: 0 <= j < |opportunities| ==> opportunities[j].id != newId
      modifies this
      ensures Valid()
      ensures editing.Some? ==>
        opportunities == ReplaceById(old(opportunities), editing.value.id, SavedOpportunity(editing.value.id, form, now))
      ensures editing.None? ==> opportunities == old(opportunities) + [SavedOpportunity(newId, form, now)]
    {
      if editing.Some? {
        opportunities := ReplaceById(opportunities, editing.value.id, SavedOpportunity(editing.value.id, form, now));
      } else {
        opportunities := opportunities + [SavedOpportunity(newId, form, now)];
      }
    }

    /** handleArchive: after confirmation, every opportunity with that id is dropped. */
    method Archive(id: string, confirmed: bool)
      requires Valid()
      modifies this
      ensures Valid()
      ensures confirmed ==> opportunities == RemoveById(old(opportunities), id)
      ensures !confirmed ==> opportunities == old(opportunities)
    {
      if confirmed {
        RemoveKeepsDistinct(opportunities, id);
        opportunities := RemoveById(opportunities, id);
      }
    }
  }
}

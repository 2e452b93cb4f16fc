// The career-save dashboard (dashboard.js): its escapeHtml and toNumber
// helpers, the profit of a save's transfers, the normalisation of the saves
// response, the per-save summaries and the rename editor over the save
// list. API calls are replaced by their outcomes, passed in.

module Dashboard {
  import opened Wrappers
  import opened Text
  import opened Numbers
  import opened Js
  import opened Html

  /** escapeHtml (dashboard.js:49-56): String(v ?? ""), escaped; null and undefined give "". */
  function EscapeHtml(v: Value): (r: string)
    ensures v.Undefined? || v.Null? ==> r == ""
    ensures forall i :: 0 <= i < |r| ==> r[i] == '&' || !IsSpecial(r[i])
    ensures forall i :: 0 <= i < |r| && r[i] == '&' ==> EntityAt(r, i)
    ensures !v.Undefined? && !v.Null? ==> Unescape(r) == ToStr(v)
  {
    var s := ToStr(Coalesce(v, Str("")));
    EscapeTextSafe(s);
    UnescapeEscapeText(s);
    EscapeText(s)
  }

  /** toNumber (dashboard.js:65-68): Number(v) when finite, otherwise 0. */
  function ToNumber(v: Value): (r: real)
    ensures !Js.ToNumber(v).Finite? ==> r == 0.0
    ensures Js.ToNumber(v).Finite? ==> r == Js.ToNumber(v).v
  {
    match Js.ToNumber(v)
    case Finite(n) => n
    case NaN | Infinite(_) => 0.0
  }

  /** The decimal text of an integer reads back as that integer. */
  lemma ToNumberOfInt(i: int)
    ensures ToNumber(Str(IntToDecimal(i))) == i as real
  {
    assert Js.ToNumber(Str(IntToDecimal(i))) == Finite(i as real) by {
      IntToDecimalRoundTrip(i);
    }
  }

  /** `toNumber(t[a]) || toNumber(t[b]) || toNumber(t[c]) || 0`: the first non-zero of three fields. */
  function FirstNonZero(t: Record, a: string, b: string, c: string): (r: real)
    ensures r != 0.0 ==> r == ToNumber(Get(t, a)) || r == ToNumber(Get(t, b)) || r == ToNumber(Get(t, c))
    ensures r == 0.0 <==> ToNumber(Get(t, a)) == 0.0 && ToNumber(Get(t, b)) == 0.0 && ToNumber(Get(t, c)) == 0.0
    ensures ToNumber(Get(t, a)) != 0.0 ==> r == ToNumber(Get(t, a))
    ensures ToNumber(Get(t, a)) == 0.0 && ToNumber(Get(t, b)) != 0.0 ==> r == ToNumber(Get(t, b))
    ensures ToNumber(Get(t, a)) == 0.0 && ToNumber(Get(t, b)) == 0.0 ==> r == ToNumber(Get(t, c))
  {
    if ToNumber(Get(t, a)) != 0.0 then ToNumber(Get(t, a))
    else if ToNumber(Get(t, b)) != 0.0 then ToNumber(Get(t, b))
    else ToNumber(Get(t, c))
  }

  /** A transfer's cost (dashboard.js:75-79). */
  function Cost(t: Record): real { FirstNonZero(t, "costGbp", "costGBP", "cost") }

  /** A transfer's sale (dashboard.js:81-85). */
  function Sale(t: Record): real { FirstNonZero(t, "saleGbp", "saleGBP", "sale") }

  /** The sum of sale - cost over the transfers, in list order. */
  function ProfitOf(ts: seq<Record>): real
    decreases |ts|
  {
    if ts == [] then 0.0 else ProfitOf(ts[..|ts| - 1]) + (Sale(ts[|ts| - 1]) - Cost(ts[|ts| - 1]))
  }

  /** Profit is additive over a split of the list. */
  lemma {:induction false} ProfitOfAppend(a: seq<Record>, b: seq<Record>)
    ensures ProfitOf(a + b) == ProfitOf(a) + ProfitOf(b)
    decreases |b|
  {
    if b == [] {
      assert a + b == a;
    } else {
      var c := b[..|b| - 1];
      assert (a + b)[..|a + b| - 1] == a + c;
      assert (a + b)[|a + b| - 1] == b[|b| - 1];
      ProfitOfAppend(a, c);
    }
  }

  /** The sums of sales and costs, for the split form of the profit. */
  function SaleSum(ts: seq<Record>): real
    decreases |ts|
  {
    if ts == [] then 0.0 else SaleSum(ts[..|ts| - 1]) + Sale(ts[|ts| - 1])
  }

  function CostSum(ts: seq<Record>): real
    decreases |ts|
  {
    if ts == [] then 0.0 else CostSum(ts[..|ts| - 1]) + Cost(ts[|ts| - 1])
  }

  /** The profit is the total sale less the total cost. */
  lemma {:induction false} ProfitOfSplit(ts: seq<Record>)
    ensures ProfitOf(ts) == SaleSum(ts) - CostSum(ts)
    decreases |ts|
  {
    if ts != [] {
      ProfitOfSplit(ts[..|ts| - 1]);
    }
  }

  /** profitFromTransfers (dashboard.js:71-90); None stands for a null or undefined list. */
  method ProfitFromTransfers(transfers: Option<seq<Record>>) returns (sum: real)
    ensures transfers.None? ==> sum == 0.0
    ensures transfers.Some? ==> sum == ProfitOf(transfers.value)
  {
    var ts := if transfers.Some? then transfers.value else [];
    sum := 0.0;
    var i := 0;
    while i < |ts|
      invariant 0 <= i <= |ts|
      invariant sum == ProfitOf(ts[..i])
    {
      var t := ts[i];
      var cost := FirstNonZero(t, "costGbp", "costGBP", "cost");
      var sale := FirstNonZero(t, "saleGbp", "saleGBP", "sale");
      assert ts[..i + 1][..i] == ts[..i];
      sum := sum + (sale - cost);
      i := i + 1;
    }
    assert ts[..i] == ts;
  }

  /** What Api.listSaves gave: an array, an object (with its `items` array, if any), another value, or an error. */
  datatype SavesResponse = SavesArray(list: seq<Record>) | SavesObject(items: Option<seq<Record>>) | SavesOther | SavesFailed

  /** The saves refresh keeps (dashboard.js:93-99); None when the call failed and the list is left as it was. */
  function NormalizeSaves(response: SavesResponse): (r: Option<seq<Record>>)
    ensures r.None? <==> response.SavesFailed?
    ensures response.SavesArray? ==> r == Some(response.list)
    ensures response.SavesObject? && response.items.Some? ==> r == Some(response.items.value)
    ensures response.SavesOther? || (response.SavesObject? && response.items.None?) ==> r == Some([])
  {
    match response
    case SavesArray(list) => Some(list)
    case SavesObject(items) => if items.Some? then Some(items.value) else Some([])
    case SavesOther => Some([])
    case SavesFailed => None
  }

  /** Wrapping a list in `{items: [...]}` or not makes no difference. */
  lemma NormalizeSavesWrapped(list: seq<Record>)
    ensures NormalizeSaves(SavesObject(Some(list))) == NormalizeSaves(SavesArray(list))
  {
  }

  /** What Api.listTransfers gave for one save: an array, `{items: [...]}`, or anything else. */
  datatype Transfers = TransfersArray(list: seq<Record>) | TransfersWrapped(items: seq<Record>) | TransfersOther

  /** One summary fetch, as Promise.allSettled reports it. */
  datatype Fetch = Rejected | Fulfilled(transfers: Transfers)

  datatype Summary = Summary(count: nat, profit: real)

  /** The transfers list a summary is computed from (dashboard.js:123-124). */
  function TransferList(t: Transfers): seq<Record> {
    match t
    case TransfersArray(list) => list
    case TransfersWrapped(items) => items
    case TransfersOther => []
  }

  /** The summary a fulfilled fetch yields (dashboard.js:125-129). */
  function SummaryOf(t: Transfers): Summary {
    var list := TransferList(t);
    Summary(|list|, ProfitOf(list))
  }

  /** The summaries map after the results of the first n saves (dashboard.js:133-135): fulfilled ones only, a later id overriding. */
  function SummariesOf(saves: seq<Record>, fetch: nat -> Fetch, n: nat): map<Value, Summary>
    requires n <= |saves|
  {
    if n == 0 then map[]
    else
      Recorded(SummariesOf(saves, fetch, n - 1), saves[n - 1], fetch(n - 1))
  }

  /** The summaries map once the result of one save's fetch is in (dashboard.js:133-135). */
  function Recorded(m: map<Value, Summary>, save: Record, f: Fetch): map<Value, Summary> {
    match f
    case Fulfilled(t) => m[Get(save, "id") := SummaryOf(t)]
    case Rejected => m
  }

  /** A summary cell: the count and profit, or "—" when the save has no summary. */
  datatype Cell = Shown(summary: Summary) | Dash

  /** `summaries[s.id] || { count: "—", profit: "—" }` (dashboard.js:142). */
  function CellFor(s: Record, summaries: map<Value, Summary>): Cell {
    var id := Get(s, "id");
    if id in summaries then Shown(summaries[id]) else Dash
  }

  /** An id that no earlier save has is absent from the summaries of those saves. */
  lemma {:induction false} SummariesOfAbsent(saves: seq<Record>, fetch: nat -> Fetch, n: nat, id: Value)
    requires n <= |saves|
    requires forall j :: 0 <= j < n ==> Get(saves[j], "id") != id
    ensures id !in SummariesOf(saves, fetch, n)
  {
    if n > 0 {
      SummariesOfAbsent(saves, fetch, n - 1, id);
    }
  }

  /** Ids of saves after index i leave the entry of save i alone. */
  lemma {:induction false} SummariesOfKeep(saves: seq<Record>, fetch: nat -> Fetch, i: nat, n: nat)
    requires i < n <= |saves|
    requires forall j :: i < j < n ==> Get(saves[j], "id") != Get(saves[i], "id")
    ensures var id := Get(saves[i], "id");
      && (fetch(i).Rejected? && (forall j :: 0 <= j < i ==> Get(saves[j], "id") != id) ==> id !in SummariesOf(saves, fetch, n))
      && (fetch(i).Fulfilled? ==> id in SummariesOf(saves, fetch, n) && SummariesOf(saves, fetch, n)[id] == SummaryOf(fetch(i).transfers))
    decreases n
  {
    var id := Get(saves[i], "id");
    if n - 1 == i {
      if fetch(i).Rejected? && (forall j :: 0 <= j < i ==> Get(saves[j], "id") != id) {
        SummariesOfAbsent(saves, fetch, i, id);
      }
    } else {
      SummariesOfKeep(saves, fetch, i, n - 1);
    }
  }

  /**
   * For a save whose id is unique, its row shows the count and profit of its
   * transfers when its fetch was fulfilled and "—" when it was rejected.
   */
  lemma SummaryCell(saves: seq<Record>, fetch: nat -> Fetch, i: nat)
    requires i < |saves|
    requires forall j :: 0 <= j < |saves| && j != i ==> Get(saves[j], "id") != Get(saves[i], "id")
    ensures fetch(i).Rejected? ==> CellFor(saves[i], SummariesOf(saves, fetch, |saves|)) == Dash
    ensures fetch(i).Fulfilled? ==>
      CellFor(saves[i], SummariesOf(saves, fetch, |saves|)) == Shown(Summary(|TransferList(fetch(i).transfers)|, ProfitOf(TransferList(fetch(i).transfers))))
  {
    SummariesOfKeep(saves, fetch, i, |saves|);
  }

  /**
   * The summaries loop of render (dashboard.js:118-136): each save's
   * transfers are fetched, and only fulfilled results are recorded.
   */
  method CollectSummaries(saves: seq<Record>, fetch: nat -> Fetch) returns (summaries: map<Value, Summary>)
    ensures summaries == SummariesOf(saves, fetch, |saves|)
  {
    summaries := map[];
    var i := 0;
    while i < |saves|
      invariant 0 <= i <= |saves|
      invariant summaries == SummariesOf(saves, fetch, i)
    {
      summaries := RecordFetch(summaries, saves[i], fetch(i));
      i := i + 1;
    }
  }

  /** One step of the summaries loop: a fulfilled fetch's count and profit are stored under the save's id. */
  method RecordFetch(m: map<Value, Summary>, save: Record, f: Fetch) returns (r: map<Value, Summary>)
    ensures r == Recorded(m, save, f)
  {
    match f {
      case Fulfilled(t) =>
        var list := TransferList(t);
        var profit := ProfitFromTransfers(Some(list));
        r := m[Get(save, "id") := Summary(|list|, profit)];
      case Rejected =>
        r := m;
    }
  }

  /** The name a rename sends: the trimmed draft, None when that is empty. */
  function RenameTo(draft: Value): (r: Option<string>)
    ensures r.Some? ==> r.value != "" && Trimmed(r.value)
    ensures r.None? <==> Trim(TextOf(draft)) == ""
  {
    var name := Trim(TextOf(draft));
    if name == "" then None else Some(name)
  }

  /** Trimming the sent name again changes nothing: a rename of a renamed save sends the same name. */
  lemma RenameToIdempotent(draft: Value)
    requires RenameTo(draft).Some?
    ensures RenameTo(Str(RenameTo(draft).value)) == RenameTo(draft)
  {
    var name := Trim(TextOf(draft));
    assert TextOf(Str(name)) == name;
    assert Trim(name) == name by {
      TrimIdempotent(TextOf(draft));
    }
  }

  /** The draft an edit starts from (dashboard.js:211-212): the found save's name, or "". */
  function DraftFor(saves: seq<Record>, id: string): (r: Value)
    ensures (forall j :: 0 <= j < |saves| ==> Get(saves[j], "id") != Str(id)) ==> r == Str("")
  {
    if saves == [] then Str("")
    else if Get(saves[0], "id") == Str(id) then Or(Get(saves[0], "name"), Str(""))
    else DraftFor(saves[1..], id)
  }

  /** The draft of the first save with the id is its name (or "" when the name is falsy). */
  lemma {:induction false} DraftForFound(saves: seq<Record>, id: string, i: nat)
    requires i < |saves| && Get(saves[i], "id") == Str(id)
    requires forall j :: 0 <= j < i ==> Get(saves[j], "id") != Str(id)
    ensures DraftFor(saves, id) == Or(Get(saves[i], "name"), Str(""))
  {
    if i > 0 {
      DraftForFound(saves[1..], id, i - 1);
    }
  }

  /** The dashboard's state (dashboard.js:43-46): the saves and the rename editor. */
  class SaveList {
    var saves: seq<Record>
    var editingSaveId: Value
    var draft: Value

    constructor ()
      ensures saves == [] && editingSaveId == Null && draft == Str("")
    {
      saves := [];
      editingSaveId := Null;
      draft := Str("");
    }

    /** refresh (dashboard.js:92-102). */
    method Refresh(response: SavesResponse)
      modifies this
      ensures NormalizeSaves(response).Some? ==> saves == NormalizeSaves(response).value
      ensures NormalizeSaves(response).None? ==> saves == old(saves)
      ensures editingSaveId == old(editingSaveId) && draft == old(draft)
    {
      var r := NormalizeSaves(response);
      if r.Some? {
        saves := r.value;
      }
    }

    /** The edit button of save `id` (dashboard.js:208-215). */
    method Edit(id: string)
      modifies this
      ensures editingSaveId == Str(id) && draft == DraftFor(old(saves), id) && saves == old(saves)
    {
      editingSaveId := Str(id);
      draft := DraftFor(saves, id);
    }

    /** The cancel button (dashboard.js:217-222). */
    method Cancel()
      modifies this
      ensures editingSaveId == Null && draft == Str("") && saves == old(saves)
    {
      editingSaveId := Null;
      draft := Str("");
    }

    /**
     * The save button of save `id` (dashboard.js:224-236). A blank draft is
     * refused and nothing changes. Otherwise the trimmed name is sent
     * (`sent`); once the update went through the editor is reset and the
     * list refreshed from `response`.
     */
    method Rename(id: string, updated: bool, response: SavesResponse) returns (sent: Option<(string, string)>)
      modifies this
      ensures RenameTo(old(draft)).None? ==>
        sent == None && saves == old(saves) && editingSaveId == old(editingSaveId) && draft == old(draft)
      ensures RenameTo(old(draft)).Some? ==> sent == Some((id, RenameTo(old(draft)).value))
      ensures RenameTo(old(draft)).Some? && !updated ==>
        saves == old(saves) && editingSaveId == old(editingSaveId) && draft == old(draft)
      ensures RenameTo(old(draft)).Some? && updated ==>
        && editingSaveId == Null && draft == Str("")
        && saves == (if NormalizeSaves(response).Some? then NormalizeSaves(response).value else old(saves))
    {
      var name := RenameTo(draft);
      if name.None? {
        return None;
      }
      sent := Some((id, name.value));
      if !updated {
        return;
      }
      editingSaveId := Null;
      draft := Str("");
      Refresh(response);
    }

    /** Typing into the name input of save `id` (dashboard.js:248-254): only the edited save's input counts. */
    method Input(id: string, value: string)
      modifies this
      ensures Str(id) == old(editingSaveId) ==> draft == Str(value)
      ensures Str(id) != old(editingSaveId) ==> draft == old(draft)
      ensures editingSaveId == old(editingSaveId) && saves == old(saves)
    {
      if Str(id) != editingSaveId {
        return;
      }
      draft := Str(value);
    }
  }
}

// The state the transfer tracker page keeps between events (app.js:270-281)
// and the handlers that change it: the players list (add, update, delete,
// reset, load and import), the seniority filter, the sort header and the
// save-title editor. Each API call is replaced by its outcome, passed in;
// uid() and Date.now() are parameters too.

module TrackerPage {
  import opened Wrappers
  import opened Text
  import opened Js
  import opened Tracker

  /** A uid(): never empty. */
  type Uid = s: string | s != "" witness "0"

  /** The outcome of a create or update call: an error, or the reply body (None when the body is empty). */
  datatype Reply = Failed | Replied(body: Option<Record>)

  /** What JSON.parse gave for an import file. */
  datatype Parsed = Unparsable | NotArray | Array(items: seq<Record>)

  /** What Api.listTransfers gave. */
  datatype Listing = ListFailed | ListArray(items: seq<Record>) | ListOther

  /** setSeniorityFilter (app.js:409-410): "Youth" and "All" are kept, anything else becomes "Senior". */
  function SeniorityFilterOf(next: Value): (r: string)
    ensures r == "Youth" <==> next == Str("Youth")
    ensures r == "All" <==> next == Str("All")
    ensures r == "Senior" <==> next != Str("Youth") && next != Str("All")
  {
    if next == Str("Youth") then "Youth" else if next == Str("All") then "All" else "Senior"
  }

  /**
   * The automatic switch after add and update shows the player it was made
   * for, whenever its seniority is falsy, "Youth", "Senior" or "All".
   */
  lemma AutoSwitchShowsPlayer(p: Record)
    requires var v := Get(p, "seniority"); !Truthy(v) || v == Str("Youth") || v == Str("Senior") || v == Str("All")
    ensures MatchesSeniority(p, SeniorityFilterOf(Get(p, "seniority")))
  {
    var v := Get(p, "seniority");
    if !Truthy(v) {
      assert Or(v, Str("Senior")) == Str("Senior");
    }
  }

  /** players.findIndex(p => p.id === id). */
  function FindIndex(list: seq<Record>, id: Value): (i: int)
    ensures -1 <= i < |list|
    ensures i >= 0 ==> Get(list[i], "id") == id && forall j :: 0 <= j < i ==> Get(list[j], "id") != id
    ensures i == -1 <==> forall j :: 0 <= j < |list| ==> Get(list[j], "id") != id
  {
    if list == [] then -1
    else if Get(list[0], "id") == id then 0
    else
      var k := FindIndex(list[1..], id);
      if k == -1 then -1 else k + 1
  }

  /** players.filter(x => x.id !== id). */
  function RemoveId(list: seq<Record>, id: Value): (r: seq<Record>)
    ensures |r| <= |list|
    ensures forall j :: 0 <= j < |r| ==> Get(r[j], "id") != id
  {
    if list == [] then []
    else (if Get(list[0], "id") == id then [] else [list[0]]) + RemoveId(list[1..], id)
  }

  /** Delete removes every record with the id and keeps every other one as often as it occurs. */
  lemma {:induction false} RemoveIdCount(list: seq<Record>, id: Value, x: Record)
    ensures multiset(RemoveId(list, id))[x] == if Get(x, "id") == id then 0 else multiset(list)[x]
  {
    if list != [] {
      var head := if Get(list[0], "id") == id then [] else [list[0]];
      var rest := RemoveId(list[1..], id);
      assert multiset(rest)[x] == if Get(x, "id") == id then 0 else multiset(list[1..])[x] by {
        RemoveIdCount(list[1..], id, x);
      }
      assert multiset(list)[x] == multiset([list[0]])[x] + multiset(list[1..])[x] by {
        assert list == [list[0]] + list[1..];
      }
      assert multiset(RemoveId(list, id))[x] == multiset(head)[x] + multiset(rest)[x] by {
        assert RemoveId(list, id) == head + rest;
      }
    }
  }

  /** Delete keeps the others in order, and removes at least one record when one has the id. */
  lemma {:induction false} RemoveIdShrinks(list: seq<Record>, id: Value)
    ensures FindIndex(list, id) == -1 ==> RemoveId(list, id) == list
    ensures FindIndex(list, id) >= 0 ==> |RemoveId(list, id)| < |list|
  {
    if list != [] {
      RemoveIdShrinks(list[1..], id);
    }
  }

  /** createPlayerInApi's payload (app.js:349-350): a copy of the record, with a uid() as id when it has none. */
  function CreatePayload(p: Record, freshId: Uid): (r: Record)
    ensures Truthy(Get(r, "id"))
    ensures forall k :: k in p && k != "id" ==> k in r && r[k] == p[k]
  {
    if Truthy(Get(p, "id")) then p else p["id" := Str(freshId)]
  }

  /** The record createPlayerInApi returns: the reply body, or the payload when the body is empty. */
  function Created(p: Record, freshId: Uid, body: Option<Record>): (r: Record)
    ensures body.Some? ==> r == body.value
    ensures body.None? ==> r == CreatePayload(p, freshId)
  {
    if body.Some? then body.value else CreatePayload(p, freshId)
  }

  /** A record that already has an id is sent as it is. */
  lemma CreatePayloadKeeps(p: Record, freshId: Uid)
    requires Truthy(Get(p, "id"))
    ensures CreatePayload(p, freshId) == p
  {
  }

  /**
   * The record the update handler stores at index `idx` (app.js:655-659):
   * the form data with the edited id and the kept createdAt (or now), sent
   * as the payload, and the reply (or the payload) spread over the old record.
   */
  function Merged(old_: Record, data: Record, editingId: Value, now: real, body: Option<Record>): Record {
    var next := data + map["id" := editingId, "createdAt" := Or(Get(old_, "createdAt"), Num(now))];
    var payload := next + map["id" := editingId];
    old_ + (if body.Some? then body.value else payload)
  }

  /**
   * Without a reply body, the merged record keeps the edited id and the
   * first createdAt, takes every field of the form data, and keeps every
   * other field of the old record.
   */
  lemma MergedFields(old_: Record, data: Record, editingId: Value, now: real, k: string)
    ensures var m := Merged(old_, data, editingId, now, None);
      && Get(m, "id") == editingId
      && (Truthy(Get(old_, "createdAt")) ==> Get(m, "createdAt") == Get(old_, "createdAt"))
      && (!Truthy(Get(old_, "createdAt")) ==> Get(m, "createdAt") == Num(now))
      && (k != "id" && k != "createdAt" && k in data ==> Get(m, k) == data[k])
      && (k != "id" && k != "createdAt" && k !in data ==> Get(m, k) == Get(old_, k))
  {
  }

  /** The records loadPlayersFromApi keeps (app.js:328-344). */
  function LoadedPlayers(saveId: string, listing: Listing): (r: seq<Record>)
    ensures saveId == "" || !listing.ListArray? ==> r == []
    ensures saveId != "" && listing.ListArray? ==>
      |r| == |listing.items| && forall i :: 0 <= i < |r| ==> r[i] == NormalizeLoaded(listing.items[i])
  {
    if saveId == "" || !listing.ListArray? then []
    else seq(|listing.items|, i requires 0 <= i < |listing.items| => NormalizeLoaded(listing.items[i]))
  }

  /** Every loaded player is Youth or Senior, so the Youth and Senior totals add up to the All totals. */
  lemma LoadedTotals(saveId: string, listing: Listing)
    ensures var list := LoadedPlayers(saveId, listing);
      && TotalsOf(list, "Youth").cost + TotalsOf(list, "Senior").cost == TotalsOf(list, "All").cost
      && TotalsOf(list, "Youth").sale + TotalsOf(list, "Senior").sale == TotalsOf(list, "All").sale
  {
    var list := LoadedPlayers(saveId, listing);
    assert forall i :: 0 <= i < |list| ==> Get(list[i], "seniority") == Str("Youth") || Get(list[i], "seniority") == Str("Senior");
    SeniorityPartition(list);
  }

  /** The import map (app.js:752-768): record i gets uid(i) when it has no id. */
  function ImportedPlayers(items: seq<Record>, uid: nat -> Uid, now: real): (r: seq<Record>)
    ensures |r| == |items|
    ensures forall i :: 0 <= i < |r| ==> r[i] == NormalizeImported(items[i], uid(i), now)
  {
    seq(|items|, i requires 0 <= i < |items| => NormalizeImported(items[i], uid(i), now))
  }

  /** Every imported record has a non-empty id, so creating it sends it as it is. */
  lemma ImportedHaveIds(items: seq<Record>, uid: nat -> Uid, now: real, i: nat)
    requires i < |items|
    ensures Truthy(Get(ImportedPlayers(items, uid, now)[i], "id"))
    ensures CreatePayload(ImportedPlayers(items, uid, now)[i], uid(i)) == ImportedPlayers(items, uid, now)[i]
  {
    var r := ImportedPlayers(items, uid, now)[i];
    ImportedGet(items[i], "id", uid(i), now);
    assert TextOr(Get(items[i], "id"), Str(uid(i))) != "";
  }

  /** Importing an exported list again gives the same records, whatever uid() and Date.now() return. */
  lemma ImportTwice(items: seq<Record>, uid1: nat -> Uid, t1: real, uid2: nat -> Uid, t2: real)
    ensures ImportedPlayers(ImportedPlayers(items, uid1, t1), uid2, t2) == ImportedPlayers(items, uid1, t1)
  {
    var once := ImportedPlayers(items, uid1, t1);
    forall i | 0 <= i < |items|
      ensures NormalizeImported(once[i], uid2(i), t2) == once[i]
    {
      NormalizeImportedIdempotent(items[i], uid1(i), t1, uid2(i), t2);
    }
  }

  /** The records left after the creates of an import: each reply body, or the record sent. */
  function CreatedAll(list: seq<Record>, uid: nat -> Uid, bodies: nat -> Option<Record>): (r: seq<Record>)
    ensures |r| == |list|
    ensures forall i :: 0 <= i < |r| ==> r[i] == Created(list[i], uid(i), bodies(i))
  {
    seq(|list|, i requires 0 <= i < |list| => Created(list[i], uid(i), bodies(i)))
  }

  /** The transfer tracker's page state (app.js:270-281). */
  class Page {
    var players: seq<Record>
    var editingId: Value
    var seniorityFilter: string
    var lastFlashId: Value
    var sortKey: string
    var sortDir: string

    /** The initial state: no players, nothing edited, Senior, sorted by OVR descending. */
    constructor ()
      ensures players == [] && editingId == Null && seniorityFilter == "Senior"
      ensures lastFlashId == Null && sortKey == "ovr" && sortDir == "desc"
    {
      players := [];
      editingId := Null;
      seniorityFilter := "Senior";
      lastFlashId := Null;
      sortKey := "ovr";
      sortDir := "desc";
    }

    /** setSeniorityFilter (app.js:409-417). */
    method SetSeniorityFilter(next: Value)
      modifies this
      ensures seniorityFilter == SeniorityFilterOf(next)
      ensures players == old(players) && editingId == old(editingId) && lastFlashId == old(lastFlashId)
      ensures sortKey == old(sortKey) && sortDir == old(sortDir)
    {
      seniorityFilter := SeniorityFilterOf(next);
    }

    /** A click on a sortable header (app.js:504-516); `key` is its data-sort, "" when it has none. */
    method ClickHeader(key: string)
      modifies this
      ensures (sortKey, sortDir) == NextSort(old(sortKey), old(sortDir), key)
      ensures players == old(players) && editingId == old(editingId) && lastFlashId == old(lastFlashId)
      ensures seniorityFilter == old(seniorityFilter)
    {
      if key == "" {
        return;
      }
      if sortKey == key {
        sortDir := if sortDir == "asc" then "desc" else "asc";
      } else {
        sortKey := key;
        if key in AscendingFirst {
          sortDir := "asc";
        } else {
          sortDir := "desc";
        }
        if key == "ovr" {
          sortDir := "desc";
        }
      }
    }

    /**
     * The add button (app.js:624-645). `data` is readForm()'s record (None
     * when the form is invalid), `reply` the create call's outcome. On
     * success exactly one record is appended, the filter follows its
     * seniority unless it is "All", it is flashed and the form is cleared.
     */
    method Add(data: Option<Record>, freshId: Uid, reply: Reply)
      modifies this
      ensures data.None? || reply.Failed? ==>
        players == old(players) && editingId == old(editingId) && seniorityFilter == old(seniorityFilter)
        && lastFlashId == old(lastFlashId)
      ensures data.Some? && reply.Replied? ==>
        var c := Created(data.value, freshId, reply.body);
        && players == old(players) + [c]
        && seniorityFilter == (if old(seniorityFilter) == "All" then "All" else SeniorityFilterOf(Get(c, "seniority")))
        && lastFlashId == Get(c, "id")
        && editingId == Null
      ensures sortKey == old(sortKey) && sortDir == old(sortDir)
    {
      if data.None? || reply.Failed? {
        return;
      }
      var created := Created(data.value, freshId, reply.body);
      players := players + [created];
      if seniorityFilter != "All" {
        SetSeniorityFilter(Get(created, "seniority"));
      }
      lastFlashId := Get(created, "id");
      editingId := Null;
    }

    /**
     * The update button (app.js:647-672). Nothing happens unless a player is
     * being edited and is still in the list; on success only the record at
     * its index changes, to the reply merged over it.
     */
    method Update(data: Option<Record>, now: real, reply: Reply)
      modifies this
      ensures var idx := FindIndex(old(players), old(editingId));
        if !Truthy(old(editingId)) || data.None? || idx == -1 || reply.Failed? then
          players == old(players) && editingId == old(editingId) && seniorityFilter == old(seniorityFilter)
          && lastFlashId == old(lastFlashId)
        else
          var m := Merged(old(players)[idx], data.value, old(editingId), now, reply.body);
          && players == old(players)[idx := m]
          && seniorityFilter == (if old(seniorityFilter) == "All" then "All" else SeniorityFilterOf(Get(m, "seniority")))
          && lastFlashId == old(editingId)
          && editingId == Null
      ensures sortKey == old(sortKey) && sortDir == old(sortDir)
    {
      if !Truthy(editingId) || data.None? {
        return;
      }
      var idx := FindIndex(players, editingId);
      if idx == -1 || reply.Failed? {
        return;
      }
      var m := Merged(players[idx], data.value, editingId, now, reply.body);
      players := players[idx := m];
      if seniorityFilter != "All" {
        SetSeniorityFilter(Get(players[idx], "seniority"));
      }
      lastFlashId := editingId;
      editingId := Null;
    }

    /** The reset button (app.js:687-702): once confirmed and deleted remotely, the list is empty. */
    method Reset(confirmed: bool, deleted: bool)
      modifies this
      ensures confirmed && deleted ==> players == [] && editingId == Null
      ensures !(confirmed && deleted) ==> players == old(players) && editingId == old(editingId)
      ensures seniorityFilter == old(seniorityFilter) && lastFlashId == old(lastFlashId)
      ensures sortKey == old(sortKey) && sortDir == old(sortDir)
    {
      if !confirmed || !deleted {
        return;
      }
      players := [];
      editingId := Null;
    }

    /**
     * A click on a row button (app.js:704-726) with data-action `action` and
     * data-id `id`. "edit" loads the player into the form; "delete", once
     * confirmed and deleted remotely, removes every record with that id and
     * clears the form if it was the one being edited.
     */
    method RowClick(action: string, id: string, confirmed: bool, deleted: bool)
      modifies this
      ensures FindIndex(old(players), Str(id)) == -1 ==>
        players == old(players) && editingId == old(editingId)
      ensures FindIndex(old(players), Str(id)) >= 0 && action == "edit" ==>
        players == old(players) && editingId == Str(id)
      ensures FindIndex(old(players), Str(id)) >= 0 && action == "delete" && confirmed && deleted ==>
        && players == RemoveId(old(players), Str(id))
        && editingId == (if old(editingId) == Str(id) then Null else old(editingId))
      ensures action != "edit" && !(action == "delete" && confirmed && deleted) ==>
        players == old(players) && editingId == old(editingId)
      ensures seniorityFilter == old(seniorityFilter) && lastFlashId == old(lastFlashId)
      ensures sortKey == old(sortKey) && sortDir == old(sortDir)
    {
      var idx := FindIndex(players, Str(id));
      if idx == -1 {
        return;
      }
      var p := players[idx];
      if action == "edit" {
        editingId := Get(p, "id");
      }
      if action == "delete" {
        if !confirmed || !deleted {
          return;
        }
        players := RemoveId(players, Str(id));
        if editingId == Str(id) {
          editingId := Null;
        }
      }
    }

    /** loadPlayersFromApi (app.js:328-345). */
    method LoadFromApi(saveId: string, listing: Listing)
      modifies this
      ensures players == LoadedPlayers(saveId, listing)
      ensures editingId == old(editingId) && seniorityFilter == old(seniorityFilter) && lastFlashId == old(lastFlashId)
      ensures sortKey == old(sortKey) && sortDir == old(sortDir)
    {
      players := LoadedPlayers(saveId, listing);
    }

    /**
     * The import handler (app.js:743-782). A file that does not parse to an
     * array changes nothing. Otherwise the list becomes the normalised
     * records at once; when the remote deletes and creates go through it
     * becomes the created records and the form is cleared.
     */
    method Import(parsed: Parsed, uid: nat -> Uid, now: real, synced: bool, bodies: nat -> Option<Record>)
      modifies this
      ensures !parsed.Array? ==> players == old(players) && editingId == old(editingId)
      ensures parsed.Array? && !synced ==>
        players == ImportedPlayers(parsed.items, uid, now) && editingId == old(editingId)
      ensures parsed.Array? && synced ==>
        players == CreatedAll(ImportedPlayers(parsed.items, uid, now), uid, bodies) && editingId == Null
      ensures seniorityFilter == old(seniorityFilter) && lastFlashId == old(lastFlashId)
      ensures sortKey == old(sortKey) && sortDir == old(sortDir)
    {
      if !parsed.Array? {
        return;
      }
      players := ImportedPlayers(parsed.items, uid, now);
      if !synced {
        return;
      }
      players := CreatedAll(players, uid, bodies);
      editingId := Null;
    }
  }

  /** With empty reply bodies, a synced import leaves exactly the normalised records. */
  lemma ImportEmptyReplies(items: seq<Record>, uid: nat -> Uid, now: real)
    ensures CreatedAll(ImportedPlayers(items, uid, now), uid, _ => None) == ImportedPlayers(items, uid, now)
  {
    var list := ImportedPlayers(items, uid, now);
    forall i | 0 <= i < |list|
      ensures Created(list[i], uid(i), None) == list[i]
    {
      ImportedHaveIds(items, uid, now, i);
    }
  }

  // ---------- the save-title editor ----------

  /** The title a commit settles on: the trimmed text, or "Untitled" when that is empty. */
  function SettledTitle(text: string): string {
    var t := Trim(text);
    if t == "" then "Untitled" else t
  }

  /** The settled title is never empty and has no white space at either end; it is the trimmed text whenever that is not empty. */
  lemma SettledTitleShape(text: string)
    ensures SettledTitle(text) != "" && Trimmed(SettledTitle(text))
    ensures Trim(text) != "" ==> SettledTitle(text) == Trim(text)
  {
    assert Trimmed("Untitled");
  }

  /** Committing an unchanged settled title settles on the same title. */
  lemma SettledTitleIdempotent(text: string)
    ensures SettledTitle(SettledTitle(text)) == SettledTitle(text)
  {
    SettledTitleShape(text);
    TrimOfTrimmed(SettledTitle(text));
  }

  /** The heading after a failed rename (app.js:230-233): the stored name, else the text before editing, else "Untitled". */
  function RevertedTitle(saveName: Value, originalTitle: string): (r: string)
    ensures Truthy(saveName) ==> r == ToStr(saveName)
    ensures !Truthy(saveName) && originalTitle != "" ==> r == originalTitle
    ensures !Truthy(saveName) && originalTitle == "" ==> r == "Untitled"
  {
    ToStr(Or(Or(saveName, Str(originalTitle)), Str("Untitled")))
  }

  /** The browser tab's title for a save name (app.js:224). */
  function DocumentTitle(name: string): string {
    name + " — FC26 Transfer Tracker"
  }

  /**
   * The title editor of app.js:188-268: the heading's text, the document
   * title, whether the heading is being edited, the text before editing and
   * the save's name as last stored (CURRENT_SAVE.name).
   */
  class TitleEditor {
    var text: string
    var docTitle: string
    var editing: bool
    var originalTitle: string
    var saveName: Value

    /** The heading as boot sets it (app.js:166-170). */
    constructor (saveName: Value, docTitle: string)
      ensures this.saveName == saveName && this.docTitle == docTitle
      ensures text == ToStr(Or(saveName, Str("Untitled"))) && originalTitle == text && !editing
    {
      this.saveName := saveName;
      this.docTitle := docTitle;
      text := ToStr(Or(saveName, Str("Untitled")));
      originalTitle := text;
      editing := false;
    }

    /** startTitleEdit (app.js:205-213). */
    method Start()
      modifies this
      ensures editing && originalTitle == old(text)
      ensures text == old(text) && docTitle == old(docTitle) && saveName == old(saveName)
    {
      originalTitle := text;
      editing := true;
    }

    /**
     * The state commitTitleEdit leaves behind an edit in progress: editing is
     * over, the tab shows the settled text, and the heading and the save's
     * name follow the rename call's outcome.
     */
    twostate predicate Committed(renamed: bool)
      reads this
    {
      var next := SettledTitle(old(text));
      && !editing
      && docTitle == DocumentTitle(next)
      && (renamed ==> text == next && saveName == Str(next))
      && (!renamed ==> text == RevertedTitle(old(saveName), old(originalTitle)) && saveName == old(saveName))
      && originalTitle == old(originalTitle)
    }

    /**
     * commitTitleEdit (app.js:215-236). `renamed` is whether the rename call
     * succeeded; the heading settles on the trimmed text (or "Untitled"), and
     * reverts to the stored name when the call fails.
     */
    method Commit(renamed: bool)
      modifies this
      ensures !old(editing) ==>
        text == old(text) && docTitle == old(docTitle) && saveName == old(saveName) && !editing
      ensures old(editing) ==> Committed(renamed)
      ensures originalTitle == old(originalTitle)
    {
      if !editing {
        return;
      }
      var next := SettledTitle(text);
      editing, text, docTitle := false, next, DocumentTitle(next);
      if renamed {
        saveName := Str(next);
      } else {
        text := RevertedTitle(saveName, originalTitle);
      }
    }

    /** cancelTitleEdit (app.js:238-245): the text before editing comes back. */
    method Cancel()
      modifies this
      ensures old(editing) ==> text == old(originalTitle)
      ensures !old(editing) ==> text == old(text)
      ensures !editing && docTitle == old(docTitle) && saveName == old(saveName) && originalTitle == old(originalTitle)
    {
      if !editing {
        return;
      }
      text := originalTitle;
      editing := false;
    }

    /** The edit/done button (app.js:247-250). */
    method Click(renamed: bool)
      modifies this
      ensures !old(editing) ==>
        editing && originalTitle == old(text) && text == old(text) && docTitle == old(docTitle) && saveName == old(saveName)
      ensures old(editing) ==> Committed(renamed)
    {
      if !editing {
        Start();
      } else {
        Commit(renamed);
      }
    }

    /** keydown on the heading (app.js:252-256): Enter commits, Escape cancels, only while editing. */
    method KeyDown(key: string, renamed: bool)
      modifies this
      ensures !old(editing) || (key != "Enter" && key != "Escape") ==>
        text == old(text) && editing == old(editing) && docTitle == old(docTitle) && saveName == old(saveName)
      ensures old(editing) && key == "Enter" ==> Committed(renamed)
      ensures old(editing) && key == "Escape" ==>
        !editing && text == old(originalTitle) && docTitle == old(docTitle) && saveName == old(saveName)
      ensures originalTitle == old(originalTitle)
    {
      if !editing {
        return;
      }
      if key == "Enter" {
        Commit(renamed);
      }
      if key == "Escape" {
        Cancel();
      }
    }

    /** Typing into the heading while editing (app.js:259-263): the tab title follows, nothing is sent. */
    method Input(typed: string)
      modifies this
      ensures old(editing) ==> text == typed && docTitle == DocumentTitle(SettledTitle(typed))
      ensures !old(editing) ==> text == old(text) && docTitle == old(docTitle)
      ensures editing == old(editing) && saveName == old(saveName) && originalTitle == old(originalTitle)
    {
      if editing {
        var title := DocumentTitle(SettledTitle(typed));
        text, docTitle := typed, title;
      }
    }

    /** Leaving the heading commits an edit in progress (app.js:265-267). */
    method Blur(renamed: bool)
      modifies this
      ensures !editing
      ensures !old(editing) ==>
        text == old(text) && docTitle == old(docTitle) && saveName == old(saveName) && originalTitle == old(originalTitle)
      ensures old(editing) ==> Committed(renamed)
    {
      if editing {
        Commit(renamed);
      }
    }
  }

  /** Starting an edit and cancelling it leaves the heading as it was. */
  method StartThenCancel(e: TitleEditor)
    modifies e
    ensures e.text == old(e.text) && !e.editing && e.docTitle == old(e.docTitle) && e.saveName == old(e.saveName)
  {
    e.Start();
    e.Cancel();
  }

  /** Editing, typing and committing with a successful rename stores the settled title as the save's name. */
  method RenameFlow(e: TitleEditor, typed: string)
    requires !e.editing
    modifies e
    ensures e.text == SettledTitle(typed) && e.saveName == Str(SettledTitle(typed))
    ensures e.docTitle == DocumentTitle(e.text) && !e.editing
  {
    e.Start();
    e.Input(typed);
    e.Commit(true);
  }
}

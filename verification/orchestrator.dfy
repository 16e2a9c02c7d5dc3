/** The generator's button handler, `handleGenerateTimestamps`: URL check,
    history lookup, the call to the cloud function, and what the panel shows
    afterwards. */
module Orchestrator {
  import opened Optional
  import opened JsText
  import opened Entries
  import opened YouTubeUrl
  import opened Normalizer
  import opened History

  // ------------------------------------------------------------ the reply

  /** `data.error` as the error branch inspects it: a string, a non-null
      object (its `message` when truthy, else `""`, and its JSON text), or
      anything else. */
  datatype ErrorField = NoError | ErrorText(text: string) | ErrorObj(message: string, dump: string)

  /** The decoded reply body: `null`, a string, any other non-object value
      with its truthiness, or an object with the fields the handler reads
      (`message` when it is a string). Arrays are objects without those
      fields. */
  datatype Data =
    | DNull
    | DString(s: string)
    | DScalar(truthy: bool)
    | DObject(error: ErrorField, message: Option<string>, payload: Payload)

  /** What `fetch` gives: a network failure with its message, or a reply
      with status, `content-type` header, body text and that text decoded
      (`None` when it is not JSON). */
  datatype Reply =
    | NetworkFailure(message: string)
    | HttpReply(status: nat, contentType: Option<string>, text: string, json: Option<Data>)

  /** Either the list to show or the message of the error thrown. */
  datatype Fetched = Shown(list: seq<Entry>) | Thrown(message: string)

  /** The `content-type` header names JSON. */
  predicate DeclaresJson(contentType: Option<string>) {
    contentType.Some? && Contains(contentType.value, "application/json")
  }

  predicate IsOk(status: nat) {
    200 <= status <= 299
  }

  const InvalidUrlMessage: string := "Please enter a valid YouTube URL first."
  const ConnectMessage: string :=
    "Failed to connect to Firebase Functions. " + "Make sure the emulator is running on port 5001."
  const NullReadMessage: string := "Cannot read properties of null (reading 'url')"

  /** The prefix shared by the two reply-format errors, followed by the
      first 200 characters of the body. */
  function FormatError(kind: string, status: nat, text: string): string {
    kind + " Status: " + NatToString(status) + ". Response: " + Take(text, 200)
  }

  /** The message thrown for a non-ok reply: `data.error` when it is a
      string; for an error object its truthy `message`, else its JSON text;
      then a string `data.message`; then a string body; then the status. */
  function ErrorMessage(status: nat, data: Data): (m: string)
    ensures data.DObject? && data.error.ErrorText? ==> m == data.error.text
    ensures data.DObject? && data.error.ErrorObj? ==>
              m == (if data.error.message != [] then data.error.message else data.error.dump)
    ensures data.DObject? && data.error.NoError? && data.message.Some? ==> m == data.message.value
    ensures data.DString? && data.s != [] ==> m == data.s
    ensures data.DNull? || data.DScalar? || (data.DString? && data.s == []) ||
            (data.DObject? && data.error.NoError? && data.message.None?) ==>
              m == "Request failed with status " + NatToString(status)
  {
    var fallback := "Request failed with status " + NatToString(status);
    match data
    case DNull => fallback
    case DScalar(_) => fallback
    case DString(s) => if s != [] then s else fallback
    case DObject(error, message, _) =>
      match error
      case ErrorText(text) => text
      case ErrorObj(msg, dump) => if msg != [] then msg else dump
      case NoError => if message.Some? then message.value else fallback
  }

  /** The reply handling inside the `try`: the list to show, or the message
      of the error it throws. */
  function HandleReply(reply: Reply): (r: Fetched)
    ensures reply.NetworkFailure? ==> r == Thrown(reply.message)
    ensures reply.HttpReply? && !DeclaresJson(reply.contentType) ==>
              r == Thrown(FormatError("Unexpected response format.", reply.status, reply.text))
    ensures reply.HttpReply? && DeclaresJson(reply.contentType)
            && reply.json.None? ==>
              r == Thrown(FormatError("Invalid JSON response.", reply.status, reply.text))
    ensures reply.HttpReply? && DeclaresJson(reply.contentType) && reply.json.Some? ==>
              var data := reply.json.value;
              && (!IsOk(reply.status) ==> r == Thrown(ErrorMessage(reply.status, data)))
              && (IsOk(reply.status) && data.DNull? ==> r == Thrown(NullReadMessage))
              && (IsOk(reply.status) && data.DObject? ==> r == Shown(Normalize(data.payload)))
              && (IsOk(reply.status) && (data.DString? || data.DScalar?) ==> r == Shown([]))
    ensures r.Shown? <==>
              reply.HttpReply? && DeclaresJson(reply.contentType) && reply.json.Some? &&
              IsOk(reply.status) && !reply.json.value.DNull?
    ensures r.Shown? && reply.json.value.DObject? ==> r.list == Normalize(reply.json.value.payload)
    ensures r.Shown? && !reply.json.value.DObject? ==> r.list == []
  {
    match reply
    case NetworkFailure(message) => Thrown(message)
    case HttpReply(status, contentType, text, json) =>
      if !DeclaresJson(contentType) then
        Thrown(FormatError("Unexpected response format.", status, text))
      else if json.None? then
        Thrown(FormatError("Invalid JSON response.", status, text))
      else if !IsOk(status) then
        Thrown(ErrorMessage(status, json.value))
      else
        match json.value
        case DNull => Thrown(NullReadMessage)
        case DObject(_, _, payload) => Shown(Normalize(payload))
        case _ => Shown([])
  }

  /** The message the `catch` block shows: the fixed connection message for
      network-like failures, the thrown message with a prefix otherwise. */
  function DisplayError(message: string): (r: string)
    ensures r == ConnectMessage <==>
              Contains(message, "Failed to fetch") || Contains(message, "ERR_CONNECTION_REFUSED") ||
              Contains(message, "NetworkError")
    ensures !(Contains(message, "Failed to fetch") || Contains(message, "ERR_CONNECTION_REFUSED") ||
              Contains(message, "NetworkError")) ==>
              r == "Failed to generate timestamps: " + message
  {
    if Contains(message, "Failed to fetch") || Contains(message, "ERR_CONNECTION_REFUSED") ||
       Contains(message, "NetworkError") then
      ConnectMessage
    else
      PrefixedNotConnect(message);
      "Failed to generate timestamps: " + message
  }

  lemma PrefixedNotConnect(message: string)
    ensures "Failed to generate timestamps: " + message != ConnectMessage
  {
    var p := "Failed to generate timestamps: " + message;
    assert p[10] == 'g';
    assert ConnectMessage[10] == 'c';
  }

  // ------------------------------------------------------------ the handler

  /** The generator's visible state: the list shown (`null` before any
      generation), the error shown, and the busy flag. */
  datatype UiState = UiState(timestamps: Option<seq<Entry>>, error: Option<string>, generating: bool)

  /** One press of the button: the new state and whether the cloud
      function was called. `reply` is what the call would return. */
  datatype Press = Press(ui: UiState, fetched: bool)

  /** `handleGenerateTimestamps` for `url` against the stored history. */
  function Generate(ui: UiState, url: string, slot: Slot, reply: Reply): (r: Press)
    ensures url == [] || !IsYouTubeUrl(url) ==>
              r == Press(ui.(error := Some(InvalidUrlMessage)), false)
    ensures url != [] && IsYouTubeUrl(url) && Lookup(slot, url).Some? ==>
              r == Press(ui.(timestamps := Some(Lookup(slot, url).value.timestamps), error := None), false)
    ensures r.fetched <==> url != [] && IsYouTubeUrl(url) && Lookup(slot, url).None?
    ensures r.fetched ==> !r.ui.generating
    ensures r.fetched && HandleReply(reply).Shown? ==>
              r.ui.timestamps == Some(HandleReply(reply).list) && r.ui.error.None?
    ensures r.fetched && HandleReply(reply).Thrown? ==>
              r.ui.timestamps == ui.timestamps && r.ui.error == Some(DisplayError(HandleReply(reply).message))
  {
    if url == [] || !IsYouTubeUrl(url) then
      Press(ui.(error := Some(InvalidUrlMessage)), false)
    else
      match Lookup(slot, url)
      case Some(item) => Press(ui.(timestamps := Some(item.timestamps), error := None), false)
      case None =>
        var busy := ui.(generating := true, error := None);
        var after :=
          match HandleReply(reply)
          case Shown(list) => busy.(timestamps := Some(list))
          case Thrown(message) => busy.(error := Some(DisplayError(message)));
        Press(after.(generating := false), true)
  }

  // ------------------------------------------------------------ properties

  /** An invalid URL is rejected before history or the network is
      consulted: the outcome depends on neither. */
  lemma InvalidUrlConsultsNothing(ui: UiState, url: string, slot: Slot, slot': Slot, reply: Reply, reply': Reply)
    requires url == [] || !IsYouTubeUrl(url)
    ensures Generate(ui, url, slot, reply) == Generate(ui, url, slot', reply')
    ensures Generate(ui, url, slot, reply).ui.error == Some(InvalidUrlMessage)
  {
  }

  /** A history hit shows the stored list without calling the cloud
      function, whatever the call would have returned. */
  lemma HitSkipsFetch(ui: UiState, url: string, slot: Slot, reply: Reply, reply': Reply)
    requires url != [] && IsYouTubeUrl(url) && Lookup(slot, url).Some?
    ensures Generate(ui, url, slot, reply) == Generate(ui, url, slot, reply')
    ensures !Generate(ui, url, slot, reply).fetched
  {
  }

  /** A failed call leaves the shown list as it was. */
  lemma FailureKeepsList(ui: UiState, url: string, slot: Slot, reply: Reply)
    requires HandleReply(reply).Thrown?
    ensures Generate(ui, url, slot, reply).ui.timestamps == ui.timestamps ||
            Lookup(slot, url).Some?
  {
  }

  /** A non-JSON reply, unreadable JSON or a non-ok status always shows an
      error and never a list. */
  lemma BadReplyIsError(reply: Reply)
    requires reply.HttpReply?
    requires || !DeclaresJson(reply.contentType)
             || reply.json.None?
             || !IsOk(reply.status)
    ensures HandleReply(reply).Thrown?
  {
  }

  /** A non-empty `timestamps_list` is shown as it is, whatever the string
      field holds. */
  lemma ListWins(status: nat, ct: string, text: string, error: ErrorField, message: Option<string>,
                 list: seq<Entry>, s: Option<string>)
    requires IsOk(status) && Contains(ct, "application/json") && |list| > 0
    ensures HandleReply(HttpReply(status, Some(ct), text, Some(DObject(error, message, Payload(Some(list), s))))) ==
            Shown(list)
  {
  }

  /** The body carries something the error branch can use: an `error`
      field that is a string or an object, a string `message`, or a
      non-empty string body. */
  predicate HasDetail(data: Data) {
    || (data.DObject? && (!data.error.NoError? || data.message.Some?))
    || (data.DString? && data.s != [])
  }

  /** A string `error` wins, whatever `message` and the rest of the body
      hold. */
  lemma ErrorTextWins(status: nat, text: string, message: Option<string>, payload: Payload)
    ensures ErrorMessage(status, DObject(ErrorText(text), message, payload)) == text
  {
  }

  /** An object `error` wins over `message`: its truthy `message`, else its
      JSON text, whatever the body's own `message` is. */
  lemma ErrorObjectBeatsMessage(status: nat, msg: string, dump: string, message: Option<string>,
                                message': Option<string>, payload: Payload)
    ensures ErrorMessage(status, DObject(ErrorObj(msg, dump), message, payload)) ==
            ErrorMessage(status, DObject(ErrorObj(msg, dump), message', payload))
    ensures msg != [] ==> ErrorMessage(status, DObject(ErrorObj(msg, dump), message, payload)) == msg
  {
  }

  /** The status is only the last resort: the message depends on the
      status exactly when the body has no usable detail. */
  lemma StatusOnlyAsFallback(status: nat, status': nat, data: Data)
    requires status != status'
    ensures ErrorMessage(status, data) == ErrorMessage(status', data) <==> HasDetail(data)
  {
    if !HasDetail(data) {
      var prefix := "Request failed with status ";
      assert NatToString(status) == (prefix + NatToString(status))[|prefix|..];
      assert NatToString(status') == (prefix + NatToString(status'))[|prefix|..];
    }
  }

  /** An error the cloud function reports as `{"error": msg}` with a non-ok
      status reaches the panel as `msg`, behind the connection check. */
  lemma ServerErrorShown(ui: UiState, url: string, slot: Slot, status: nat, ct: string, text: string,
                         msg: string, message: Option<string>, payload: Payload)
    requires url != [] && IsYouTubeUrl(url) && Lookup(slot, url).None?
    requires Contains(ct, "application/json") && !IsOk(status)
    ensures var reply := HttpReply(status, Some(ct), text, Some(DObject(ErrorText(msg), message, payload)));
            Generate(ui, url, slot, reply).ui.error == Some(DisplayError(msg))
  {
  }

  // ------------------------------------------------------------ with history

  /** The press gives the generator's state a new list: a history hit, or
      a reply that is shown. Each such assignment is a new array, so the
      history panel's save effect runs again; a rejected URL or a failed
      call changes none of the effect's inputs, so it does not run. */
  predicate SetsList(url: string, slot: Slot, reply: Reply) {
    url != [] && IsYouTubeUrl(url) && (Lookup(slot, url).Some? || HandleReply(reply).Shown?)
  }

  /** The whole press with the history panel's save effect after it:
      `videoData` is the video shown, `now` the save time. */
  function PressAndSave(ui: UiState, url: string, videoData: Option<VideoData>, view: HistoryView,
                        reply: Reply, now: int): (r: (Press, HistoryView))
    ensures r.0 == Generate(ui, url, view.slot, reply)
    ensures r.1 != view ==> SetsList(url, view.slot, reply) && videoData.Some?
    ensures r.0.fetched && HandleReply(reply).Shown? && |HandleReply(reply).list| > 0 && videoData.Some? ==>
              r.1 == Save(view, HistoryItem(url, videoData.value, HandleReply(reply).list, now))
  {
    var p := Generate(ui, url, view.slot, reply);
    if SetsList(url, view.slot, reply) then (p, SaveEffect(view, url, videoData, p.ui.timestamps, now))
    else (p, view)
  }

  /** A rejected URL or a failed call leaves history as it was, whatever
      list the panel showed before. */
  lemma FailedPressSavesNothing(ui: UiState, url: string, videoData: Option<VideoData>, view: HistoryView,
                                reply: Reply, now: int)
    requires url == [] || !IsYouTubeUrl(url) ||
             (Generate(ui, url, view.slot, reply).fetched && HandleReply(reply).Thrown?)
    ensures PressAndSave(ui, url, videoData, view, reply, now).1 == view
  {
  }

  /** A history hit saves the record again, in place: same position, new
      save time and video details, the stored list unchanged. */
  lemma HitResavesInPlace(ui: UiState, url: string, vd: VideoData, items: seq<HistoryItem>,
                          shown: seq<HistoryItem>, reply: Reply, now: int)
    requires url != [] && IsYouTubeUrl(url)
    requires Lookup(Holds(items), url).Some? && |Lookup(Holds(items), url).value.timestamps| > 0
    requires |items| <= MaxItems
    ensures var i := FindIndex(items, url).value;
            var item := items[i];
            PressAndSave(ui, url, Some(vd), HistoryView(Holds(items), shown), reply, now).1.slot ==
              Holds(items[i := HistoryItem(url, vd, item.timestamps, now)])
  {
    var i := FindIndex(items, url).value;
    var item := HistoryItem(url, vd, items[i].timestamps, now);
    var view := HistoryView(Holds(items), shown);
    assert SetsList(url, view.slot, reply);
    assert Generate(ui, url, view.slot, reply).ui.timestamps == Some(items[i].timestamps);
    assert PressAndSave(ui, url, Some(vd), view, reply, now).1 == Save(view, item);
    SaveItemsInPlace(items, item, i);
  }

  lemma SaveItemsInPlace(items: seq<HistoryItem>, item: HistoryItem, i: nat)
    requires FindIndex(items, item.url) == Some(i) && |items| <= MaxItems
    ensures SaveItems(items, item) == items[i := item]
  {
    var r := SaveItems(items, item);
    assert |r| == |items|;
    forall k | 0 <= k < |r|
      ensures r[k] == items[i := item][k]
    {
    }
  }

  /** A generation that yields an empty list is not saved. */
  lemma EmptyGenerationNotCached(ui: UiState, url: string, videoData: Option<VideoData>, view: HistoryView,
                                 reply: Reply, now: int)
    requires Generate(ui, url, view.slot, reply).fetched
    requires HandleReply(reply) == Shown([])
    ensures PressAndSave(ui, url, videoData, view, reply, now).1 == view
  {
  }

  /** A generation whose list is saved is found by the next press, which
      then shows that list without a call, as long as storage had room or
      already held the URL within its first `MaxItems` records. */
  lemma SavedGenerationIsHit(ui: UiState, url: string, vd: VideoData, view: HistoryView,
                             reply: Reply, now: int, ui': UiState, reply': Reply)
    requires Generate(ui, url, view.slot, reply).fetched
    requires HandleReply(reply).Shown? && |HandleReply(reply).list| > 0
    requires !view.slot.Corrupt?
    requires view.slot.Holds? ==> |view.slot.items| < MaxItems
    ensures var after := PressAndSave(ui, url, Some(vd), view, reply, now).1;
            Generate(ui', url, after.slot, reply') ==
              Press(ui'.(timestamps := Some(HandleReply(reply).list), error := None), false)
  {
    var list := HandleReply(reply).list;
    var item := HistoryItem(url, vd, list, now);
    assert Generate(ui, url, view.slot, reply).ui.timestamps == Some(list);
    assert PressAndSave(ui, url, Some(vd), view, reply, now).1 == Save(view, item);
    assert view.slot.Holds? ==> FindIndex(view.slot.items, url).None?;
    SaveThenLookup(view, item);
  }
}

/**
 The two hand-written overloads of `upload_photo` (src/BotBase.cpp:349-457), from a file and from a
 buffer, each spelled out on its own, their equivalence, and a reader of the attachment they return.
 */
module Upload {
  import opened BotClient
  import opened ByteStrings
  import opened Decimal
  import opened HostPath
  import opened Http
  import opened JsonValues
  import opened LongPoll
  import opened Multipart
  import opened Query

  const GET_UPLOAD_SERVER: Bytes := "photos.getMessagesUploadServer"
  const SAVE_PHOTO: Bytes := "photos.saveMessagesPhoto"
  const PEER_ID: Bytes := "peer_id"
  const UPLOAD_URL: Bytes := "upload_url"
  const PHOTO: Bytes := "photo"
  const SERVER: Bytes := "server"
  const HASH: Bytes := "hash"
  const OWNER_ID: Bytes := "owner_id"
  const PHOTO_ID: Bytes := "id"
  const OCTETS: Bytes := "application/octet-stream"
  const JPEG: Bytes := "image/jpeg"
  const UNDERSCORE: Byte := '_'

  /** Why an upload throws: a call failed, the reply was rejected, a text is no number, no file. */
  datatype UploadFault = CallFault(fault: Fault) | Rejected | BadNumber | NoFile

  /** The replies to the three requests. */
  datatype Replies = Replies(server: Reply, upload: Reply, save: Reply)

  /** The attachment or the exception, and the requests sent until then. */
  datatype End = End(result: Result<Bytes, UploadFault>, sent: seq<Request>)

  function Fail(fault: UploadFault, sent: seq<Request>): (e: End)
    ensures e.result.Err?
  {
    End(Err(fault), sent)
  }

  /** `x.is_number() ? x.get<int64_t>() : std::stoll(x.get<std::string>())`. */
  function IdOf(x: Json): (r: Result<int, UploadFault>)
    ensures r.Ok? ==> IsInt64(r.value)
  {
    if x.Num? then Ok(GetInt64(x).value)
    else
      match GetStr(x)
      case None => Err(CallFault(JsonFault))
      case Some(text) =>
        match Stoll(text)
        case None => Err(BadNumber)
        case Some(n) => Ok(n)
  }

  /** `x.is_string() ? x : std::to_string(x.get<int64_t>())`. */
  function PhotoText(x: Json): Option<Bytes> {
    if x.Str? then GetStr(x)
    else
      match GetInt64(x)
      case None => None
      case Some(n) => Some(Print(n))
  }

  /** `x.is_number() ? std::to_string(x.get<int>()) : x`. */
  function ServerText(x: Json): Option<Bytes> {
    if x.Num? then Some(Print(GetInt32(x).value)) else GetStr(x)
  }

  /** A text is taken as it is, a number is printed, and everything else throws. */
  lemma TextsOfValues(x: Json, text: Bytes, n: int)
    ensures PhotoText(Str(text)) == ServerText(Str(text)) == Some(text)
    ensures IsInt64(n) ==> PhotoText(Num(n)) == Some(Print(n))
    ensures -0x8000_0000 <= n < 0x8000_0000 ==> ServerText(Num(n)) == Some(Print(n))
    ensures !x.Str? && !x.Num? ==> PhotoText(x) == None && ServerText(x) == None
  {
  }

  /** A number is itself, a text is what `std::stoll` makes of it, and everything else throws. */
  lemma IdsOfValues(x: Json, text: Bytes, n: int)
    ensures IsInt64(n) ==> IdOf(Num(n)) == Ok(n)
    ensures IdOf(Str(text)) == match Stoll(text)
                               case Some(value) => Ok(value)
                               case None => Err(BadNumber)
    ensures !x.Str? && !x.Num? ==> IdOf(x) == Err(CallFault(JsonFault))
  {
    hide Stoll;
  }

  function Attachment(owner: int, id: int): Bytes {
    PHOTO + (Print(owner) + ([UNDERSCORE] + Print(id)))
  }

  function FileRequest(url: Bytes, filename: Bytes, contentType: Bytes, data: Bytes, boundary: Bytes): Request {
    var (host, path) := ParseHostPath(url);
    PostMultipart(host, path, boundary, Body(Part(PHOTO, filename, contentType, data), boundary))
  }

  function PeerParams(peer: int): Json {
    Obj(map[PEER_ID := Str(Print(peer))])
  }

  function SaveParams(photo: Bytes, server: Bytes, hash: Bytes): Json {
    Obj(map[PHOTO := Str(photo), SERVER := Str(server), HASH := Str(hash)])
  }

  lemma RequestReads(b: Bot, group: Bytes, name: Bytes, m: Params, texts: map<Bytes, Bytes>, form: bool)
    requires b.authorized && name != [] && AllText(m) && Texts(m) == texts
    ensures var r := RequestOf(b, group, name, Obj(m));
            && r.Ok? && r.value.Post? && r.value.host == "api.vk.com" && r.value.target == "/method/" + name
            && DecodeQuery(r.value.body, form) == Texts(BotDefaults(b.token, group)) + texts
  {
    RequestContent(b, group, name, Obj(m), form);
    hide DecodeQuery, RequestOf, BotDefaults, Texts;
  }

  /** Where the first request goes; the server reads the peer in it, besides the defaults. */
  lemma PeerRequestContent(b: Bot, group: Bytes, peer: int, form: bool)
    requires b.authorized
    ensures var r := RequestOf(b, group, GET_UPLOAD_SERVER, PeerParams(peer));
            && r.Ok? && r.value.Post?
            && r.value.host == "api.vk.com" && r.value.target == "/method/" + "photos.getMessagesUploadServer"
            && DecodeQuery(r.value.body, form)
               == Texts(BotDefaults(b.token, group)) + map["peer_id" := Print(peer)]
  {
    hide DecodeQuery, RequestOf, BotDefaults;
    assert Texts(PeerParams(peer).fields) == map[PEER_ID := Print(peer)];
    RequestReads(b, group, GET_UPLOAD_SERVER, PeerParams(peer).fields, map[PEER_ID := Print(peer)], form);
  }

  /** Where the third request goes; the server reads the three texts of the upload in it, besides the defaults. */
  lemma SaveRequestContent(b: Bot, group: Bytes, photo: Bytes, server: Bytes, hash: Bytes, form: bool)
    requires b.authorized
    ensures var r := RequestOf(b, group, SAVE_PHOTO, SaveParams(photo, server, hash));
            && r.Ok? && r.value.Post?
            && r.value.host == "api.vk.com" && r.value.target == "/method/" + "photos.saveMessagesPhoto"
            && DecodeQuery(r.value.body, form)
               == Texts(BotDefaults(b.token, group)) + map["photo" := photo, "server" := server, "hash" := hash]
  {
    hide DecodeQuery, RequestOf, BotDefaults;
    var texts := map[PHOTO := photo, SERVER := server, HASH := hash];
    assert Texts(SaveParams(photo, server, hash).fields) == texts;
    RequestReads(b, group, SAVE_PHOTO, SaveParams(photo, server, hash).fields, texts, form);
  }

  /**
   What the upload server reads: the photo under its field name, with the given name, type and bytes,
   exactly when the name holds no quote, the type no CR and the bytes no delimiter.
   */
  lemma FileRequestContent(url: Bytes, filename: Bytes, contentType: Bytes, data: Bytes, boundary: Bytes)
    requires GoodBoundary(boundary)
    ensures var r := FileRequest(url, filename, contentType, data, boundary);
            && r.PostMultipart? && r.boundary == boundary && (r.host, r.target) == ParseHostPath(url)
            && (ReadPart(r.body, boundary) == Some(Part("photo", filename, contentType, data))
                <==> QUOTE !in filename && CR !in contentType && !Occurs(data, Delimiter(boundary)))
  {
    assert PHOTO[0] == 'p' && PHOTO[1] == 'h' && PHOTO[2] == 'o' && PHOTO[3] == 't' && PHOTO[4] == 'o';
    MultipartRoundTrip(Part(PHOTO, filename, contentType, data), boundary);
  }

  /** The overload that reads a file; `file` is its name and content, `None` when it cannot be read. */
  ghost function UploadFile(b: Bot, group: Bytes, peer: int, file: Option<(Bytes, Bytes)>, boundary: Bytes,
                            replies: Replies): End {
    match RequestOf(b, group, GET_UPLOAD_SERVER, PeerParams(peer))
    case Err(fault) => Fail(CallFault(fault), [])
    case Ok(first) =>
      match Parsed(replies.server)
      case Err(fault) => Fail(CallFault(fault), [first])
      case Ok(uploadServer) =>
        if Contains(uploadServer, ERROR) then Fail(Rejected, [first])
        else if !Contains(uploadServer, RESPONSE) || !Contains(uploadServer.fields[RESPONSE], UPLOAD_URL) then
          Fail(Rejected, [first])
        else
          match StrAt(uploadServer.fields[RESPONSE], UPLOAD_URL)
          case None => Fail(CallFault(JsonFault), [first])
          case Some(url) =>
            if file == None then Fail(NoFile, [first])
            else
              var second := FileRequest(url, file.value.0, OCTETS, file.value.1, boundary);
              match Parsed(replies.upload)
              case Err(fault) => Fail(CallFault(fault), [first, second])
              case Ok(uploaded) =>
                if !Contains(uploaded, PHOTO) || !Contains(uploaded, SERVER) || !Contains(uploaded, HASH) then
                  Fail(Rejected, [first, second])
                else
                  var photo := PhotoText(uploaded.fields[PHOTO]);
                  var server := ServerText(uploaded.fields[SERVER]);
                  var hash := GetStr(uploaded.fields[HASH]);
                  if photo == None || server == None || hash == None then
                    Fail(CallFault(JsonFault), [first, second])
                  else
                    match RequestOf(b, group, SAVE_PHOTO, SaveParams(photo.value, server.value, hash.value))
                    case Err(fault) => Fail(CallFault(fault), [first, second])
                    case Ok(third) => FinishFile(Parsed(replies.save), [first, second, third])
  }

  /** src/BotBase.cpp:375-403. */
  function FinishFile(reply: Result<Json, Fault>, sent: seq<Request>): End {
    match reply
    case Err(fault) => Fail(CallFault(fault), sent)
    case Ok(saved) =>
      if Contains(saved, ERROR) then Fail(Rejected, sent)
      else if !Contains(saved, RESPONSE) then Fail(Rejected, sent)
      else
        var r := saved.fields[RESPONSE];
        if !(r.Arr? && r.items != []) && !r.Obj? then Fail(Rejected, sent)
        else
          var info := if r.Arr? && r.items != [] then r.items[0] else r;
          if !Contains(info, OWNER_ID) || !Contains(info, PHOTO_ID) then Fail(Rejected, sent)
          else
            match IdOf(info.fields[OWNER_ID])
            case Err(fault) => Fail(fault, sent)
            case Ok(owner) =>
              match IdOf(info.fields[PHOTO_ID])
              case Err(fault) => Fail(fault, sent)
              case Ok(id) => End(Ok(Attachment(owner, id)), sent)
  }

  /** The overload that takes the bytes. */
  ghost function UploadBuffer(b: Bot, group: Bytes, peer: int, data: Bytes, filename: Bytes, boundary: Bytes,
                              replies: Replies): End {
    match RequestOf(b, group, GET_UPLOAD_SERVER, PeerParams(peer))
    case Err(fault) => Fail(CallFault(fault), [])
    case Ok(first) =>
      match Parsed(replies.server)
      case Err(fault) => Fail(CallFault(fault), [first])
      case Ok(uploadServer) =>
        if Contains(uploadServer, ERROR) then Fail(Rejected, [first])
        else if !Contains(uploadServer, RESPONSE) || !Contains(uploadServer.fields[RESPONSE], UPLOAD_URL) then
          Fail(Rejected, [first])
        else
          match StrAt(uploadServer.fields[RESPONSE], UPLOAD_URL)
          case None => Fail(CallFault(JsonFault), [first])
          case Some(url) =>
            var second := FileRequest(url, filename, JPEG, data, boundary);
            match Parsed(replies.upload)
            case Err(fault) => Fail(CallFault(fault), [first, second])
            case Ok(uploaded) =>
              if !Contains(uploaded, PHOTO) || !Contains(uploaded, SERVER) || !Contains(uploaded, HASH) then
                Fail(Rejected, [first, second])
              else
                var photo := PhotoText(uploaded.fields[PHOTO]);
                var server := ServerText(uploaded.fields[SERVER]);
                var hash := GetStr(uploaded.fields[HASH]);
                if photo == None || server == None || hash == None then
                  Fail(CallFault(JsonFault), [first, second])
                else
                  match RequestOf(b, group, SAVE_PHOTO, SaveParams(photo.value, server.value, hash.value))
                  case Err(fault) => Fail(CallFault(fault), [first, second])
                  case Ok(third) => FinishBuffer(Parsed(replies.save), [first, second, third])
  }

  /** `info[k]` on a document that may change: a missing entry is `null`, a non-object throws. */
  function EntryOrNull(info: Json, k: Bytes): Option<Json> {
    match info
    case Obj(fields) => Some(if k in fields then fields[k] else Null)
    case Null => Some(Null)
    case _ => None
  }

  /** src/BotBase.cpp:433-456: no test for the two entries before they are read. */
  function FinishBuffer(reply: Result<Json, Fault>, sent: seq<Request>): End {
    match reply
    case Err(fault) => Fail(CallFault(fault), sent)
    case Ok(saved) =>
      if Contains(saved, ERROR) then Fail(Rejected, sent)
      else if !Contains(saved, RESPONSE) then Fail(Rejected, sent)
      else
        var r := saved.fields[RESPONSE];
        if !(r.Arr? && r.items != []) && !r.Obj? then Fail(Rejected, sent)
        else
          var info := if r.Arr? && r.items != [] then r.items[0] else r;
          match EntryOrNull(info, OWNER_ID)
          case None => Fail(CallFault(JsonFault), sent)
          case Some(ownerEntry) =>
            match IdOf(ownerEntry)
            case Err(fault) => Fail(fault, sent)
            case Ok(owner) =>
              match EntryOrNull(info, PHOTO_ID)
              case None => Fail(CallFault(JsonFault), sent)
              case Some(idEntry) =>
                match IdOf(idEntry)
                case Err(fault) => Fail(fault, sent)
                case Ok(id) => End(Ok(Attachment(owner, id)), sent)
  }

  // ----- the requests

  /** The upload URL that the first reply gives. */
  function UploadUrl(h: Reply): Option<Bytes> {
    match h
    case Raw(Some(doc)) =>
      if Contains(doc, "error") then None
      else
        var response :- At(doc, "response");
        StrAt(response, "upload_url")
    case _ => None
  }

  /** The photo, server and hash texts that the upload reply gives. */
  function UploadTexts(h: Reply): Option<(Bytes, Bytes, Bytes)> {
    match h
    case Raw(Some(doc)) =>
      var photo :- At(doc, "photo");
      var server :- At(doc, "server");
      var hash :- StrAt(doc, "hash");
      var photoText :- PhotoText(photo);
      var serverText :- ServerText(server);
      Some((photoText, serverText, hash))
    case _ => None
  }

  /** The request that saves the photo, if the upload reply gives what it needs. */
  ghost function SaveSends(b: Bot, group: Bytes, h: Reply): seq<Request> {
    match UploadTexts(h)
    case None => []
    case Some(texts) =>
      match RequestOf(b, group, "photos.saveMessagesPhoto", SaveParams(texts.0, texts.1, texts.2))
      case Err(_) => []
      case Ok(third) => [third]
  }

  /** The upload and what follows, if the first reply gives an upload URL. */
  ghost function UploadSends(b: Bot, group: Bytes, part: Part, boundary: Bytes, replies: Replies): seq<Request> {
    match UploadUrl(replies.server)
    case None => []
    case Some(url) =>
      [FileRequest(url, part.filename, part.contentType, part.data, boundary)] + SaveSends(b, group, replies.upload)
  }

  /** All requests of an upload of the named bytes. */
  ghost function Sends(b: Bot, group: Bytes, peer: int, part: Part, boundary: Bytes, replies: Replies): seq<Request> {
    match RequestOf(b, group, "photos.getMessagesUploadServer", PeerParams(peer))
    case Err(_) => []
    case Ok(first) => [first] + UploadSends(b, group, part, boundary, replies)
  }

  lemma FileSends(b: Bot, group: Bytes, peer: int, name: Bytes, data: Bytes, boundary: Bytes, replies: Replies)
    ensures UploadFile(b, group, peer, Some((name, data)), boundary, replies).sent
            == Sends(b, group, peer, Part("photo", name, "application/octet-stream", data), boundary, replies)
    ensures UploadFile(b, group, peer, None, boundary, replies).sent
            <= Sends(b, group, peer, Part("photo", name, "application/octet-stream", data), boundary, replies)
    ensures |UploadFile(b, group, peer, None, boundary, replies).sent| <= 1
  {
    hide RequestOf, FinishFile, PhotoText, ServerText, Body, ParseHostPath, FileRequest;
    FinishSends(Parsed(replies.save));
  }

  lemma BufferSends(b: Bot, group: Bytes, peer: int, data: Bytes, filename: Bytes, boundary: Bytes, replies: Replies)
    ensures UploadBuffer(b, group, peer, data, filename, boundary, replies).sent
            == Sends(b, group, peer, Part("photo", filename, "image/jpeg", data), boundary, replies)
  {
    hide RequestOf, FinishBuffer, PhotoText, ServerText, Body, ParseHostPath, FileRequest;
    FinishSends(Parsed(replies.save));
  }

  lemma FinishSends(reply: Result<Json, Fault>)
    ensures forall sent :: FinishFile(reply, sent).sent == FinishBuffer(reply, sent).sent == sent
  {
    hide IdOf;
  }

  /** How many requests go out, on the replies. */
  lemma SendsCount(b: Bot, group: Bytes, peer: int, part: Part, boundary: Bytes, replies: Replies)
    ensures |Sends(b, group, peer, part, boundary, replies)|
            == if !b.authorized then 0
               else if UploadUrl(replies.server).None? then 1
               else if UploadTexts(replies.upload).None? then 2
               else 3
  {
    hide UploadUrl, UploadTexts, RequestOf, FileRequest;
    RequestContent(b, group, GET_UPLOAD_SERVER, PeerParams(peer), false);
    if UploadTexts(replies.upload).Some? {
      var (photo, server, hash) := UploadTexts(replies.upload).value;
      RequestContent(b, group, SAVE_PHOTO, SaveParams(photo, server, hash), false);
    }
  }

  // ----- the exceptions

  predicate RejectsServer(doc: Json) {
    || Contains(doc, "error")
    || !Contains(doc, "response") || !Contains(doc.fields["response"], "upload_url")
  }

  predicate RejectsUpload(doc: Json) {
    !Contains(doc, "photo") || !Contains(doc, "server") || !Contains(doc, "hash")
  }

  predicate RejectsSaved(doc: Json) {
    Contains(doc, "error") || SavedInfo(doc).None? || Unnamed(Ok(doc))
  }

  /** The owner's text is no number, or the owner is fine and the id's text is no number. */
  predicate BadNumbers(doc: Json) {
    && !RejectsSaved(doc)
    && var info := SavedInfo(doc).value.fields;
       || IdOf(info["owner_id"]) == Err(BadNumber)
       || (IdOf(info["owner_id"]).Ok? && IdOf(info["id"]) == Err(BadNumber))
  }

  /**
   Each exception of `upload_photo`, for the overload that reads a file, with its cause; what is left is
   an access to a document that fails.
   */
  lemma FileFaults(b: Bot, group: Bytes, peer: int, file: Option<(Bytes, Bytes)>, boundary: Bytes, replies: Replies,
                   msg: Bytes)
    ensures var x := UploadFile(b, group, peer, file, boundary, replies);
            && (x.result == Err(CallFault(NotConnected)) <==> !b.authorized)
            && (x.result == Err(CallFault(NetworkFault(msg)))
                <==> || (|x.sent| == 1 && replies.server == Failed(msg))
                     || (|x.sent| == 2 && replies.upload == Failed(msg))
                     || (|x.sent| == 3 && replies.save == Failed(msg)))
            && (x.result == Err(Rejected)
                <==> || (|x.sent| == 1 && Parsed(replies.server).Ok? && RejectsServer(Parsed(replies.server).value))
                     || (|x.sent| == 2 && Parsed(replies.upload).Ok? && RejectsUpload(Parsed(replies.upload).value))
                     || (|x.sent| == 3 && Parsed(replies.save).Ok? && RejectsSaved(Parsed(replies.save).value)))
            && (x.result == Err(NoFile) <==> b.authorized && UploadUrl(replies.server).Some? && file.None?)
            && (x.result == Err(BadNumber)
                <==> |x.sent| == 3 && Parsed(replies.save).Ok? && BadNumbers(Parsed(replies.save).value))
            && (x.result.Err? && x.result.error.CallFault? ==>
                  x.result.error.fault in {NotConnected, JsonFault} || x.result.error.fault.NetworkFault?)
  {
    hide RequestOf, FinishFile, FinishBuffer, PhotoText, ServerText, FileRequest, RejectsSaved, BadNumbers;
    RequestContent(b, group, GET_UPLOAD_SERVER, PeerParams(peer), false);
    forall photo, server, hash
      ensures b.authorized ==> RequestOf(b, group, SAVE_PHOTO, SaveParams(photo, server, hash)).Ok?
    {
      RequestContent(b, group, SAVE_PHOTO, SaveParams(photo, server, hash), false);
    }
    forall sent: seq<Request> {
      FinishFaults(replies.save, sent, msg);
    }
  }

  /** How the last step of the file overload ends. */
  lemma FinishFaults(h: Reply, sent: seq<Request>, msg: Bytes)
    ensures var e := FinishFile(Parsed(h), sent);
            && e.sent == sent && e.result != Err(CallFault(NotConnected)) && e.result != Err(NoFile)
            && (e.result == Err(CallFault(NetworkFault(msg))) <==> h == Failed(msg))
            && (e.result == Err(Rejected) <==> Parsed(h).Ok? && RejectsSaved(Parsed(h).value))
            && (e.result == Err(BadNumber) <==> Parsed(h).Ok? && BadNumbers(Parsed(h).value))
            && (e.result.Err? && e.result.error.CallFault? ==>
                  e.result.error.fault == JsonFault || e.result.error.fault.NetworkFault?)
  {
    hide Stoll;
  }

  // ----- equivalence

  /** The entry of a saved reply that describes the photo. */
  function SavedInfo(saved: Json): Option<Json> {
    match At(saved, RESPONSE)
    case Some(Arr(items)) => if items == [] then None else Some(items[0])
    case Some(Obj(fields)) => Some(Obj(fields))
    case _ => None
  }

  /** The reply describes a photo without its owner or its id. */
  predicate Unnamed(reply: Result<Json, Fault>) {
    && reply.Ok? && !Contains(reply.value, ERROR) && SavedInfo(reply.value).Some?
    && !(Contains(SavedInfo(reply.value).value, OWNER_ID) && Contains(SavedInfo(reply.value).value, PHOTO_ID))
  }

  /** Owner and id that a saved reply gives. */
  function SavedPair(reply: Result<Json, Fault>): Option<(int, int)> {
    if reply.Err? || Contains(reply.value, ERROR) || SavedInfo(reply.value).None? || Unnamed(reply) then None
    else
      var info := SavedInfo(reply.value).value;
      match (IdOf(info.fields[OWNER_ID]), IdOf(info.fields[PHOTO_ID]))
      case (Ok(owner), Ok(id)) => Some((owner, id))
      case _ => None
  }

  lemma FinishesAgree(reply: Result<Json, Fault>, a: seq<Request>, c: seq<Request>)
    ensures var x, y := FinishFile(reply, a), FinishBuffer(reply, c);
            && x.sent == a && y.sent == c
            && (x.result == y.result <==> !Unnamed(reply))
            && (Unnamed(reply) ==> x.result == Err(Rejected) && y.result.Err?)
  {
    hide Stoll;
  }

  /** Where the file overload rejects the saved photo, the other fails on an entry it misses, or on its owner. */
  lemma BufferUnnamed(reply: Result<Json, Fault>, sent: seq<Request>)
    requires Unnamed(reply)
    ensures var info := SavedInfo(reply.value).value;
            FinishBuffer(reply, sent).result
            == if Contains(info, "owner_id") && IdOf(info.fields["owner_id"]) == Err(BadNumber) then Err(BadNumber)
               else Err(CallFault(JsonFault))
  {
    hide Stoll;
  }

  lemma FinishesPair(reply: Result<Json, Fault>, sent: seq<Request>)
    ensures var x, y := FinishFile(reply, sent), FinishBuffer(reply, sent);
            match SavedPair(reply)
            case None => x.result.Err? && y.result.Err?
            case Some((owner, id)) => x.result == y.result == Ok(Attachment(owner, id))
  {
    FinishesAgree(reply, sent, sent);
    hide Stoll, FinishBuffer, Attachment;
  }

  /** Two requests that differ at most in the body. */
  predicate SameAddress(r: Request, q: Request) {
    r == q || (r.PostMultipart? && q.PostMultipart? && r.(body := []) == q.(body := []))
  }

  /**
   On the same bytes and replies the overloads send the same requests up to the body of the upload, and
   both return the same attachment or both throw.  The kinds of their exceptions differ exactly when the
   upload comes as far as the saved photo and that lacks its owner or its id.
   */
  lemma OverloadsAgree(b: Bot, group: Bytes, peer: int, name: Bytes, data: Bytes, filename: Bytes,
                       boundary: Bytes, replies: Replies)
    ensures var x := UploadFile(b, group, peer, Some((name, data)), boundary, replies);
            var y := UploadBuffer(b, group, peer, data, filename, boundary, replies);
            && (x.result.Ok? <==> y.result.Ok?)
            && (x.result == y.result <==> !(|x.sent| == 3 && Unnamed(Parsed(replies.save))))
            && |x.sent| == |y.sent| <= 3
            && (forall i :: 0 <= i < |x.sent| ==> SameAddress(x.sent[i], y.sent[i]))
            && (forall i :: 0 <= i < |x.sent| && i != 1 ==> x.sent[i] == y.sent[i])
  {
    hide RequestOf, Parsed, FinishFile, FinishBuffer, PhotoText, ServerText, IdOf, Body, ParseHostPath, Unnamed;
    forall a: seq<Request>, c: seq<Request>
      ensures var reply := Parsed(replies.save);
              var x, y := FinishFile(reply, a), FinishBuffer(reply, c);
              && x.sent == a && y.sent == c
              && (x.result == y.result <==> !Unnamed(reply))
              && (Unnamed(reply) ==> x.result == Err(Rejected) && y.result.Err?)
    {
      FinishesAgree(Parsed(replies.save), a, c);
    }
  }

  // ----- the attachment

  /** Reads back a canonical decimal text. */
  function ReadInt(s: Bytes): Option<int> {
    match Stoll(s)
    case None => None
    case Some(n) => if Print(n) == s then Some(n) else None
  }

  /** Reads "photo<owner>_<id>". */
  function ReadAttachment(s: Bytes): Option<(int, int)> {
    var t :- Expect(s, PHOTO);
    var (owner, rest) :- Before(t, UNDERSCORE);
    var o :- ReadInt(owner);
    var i :- ReadInt(rest[1..]);
    Some((o, i))
  }

  lemma ReadPrinted(n: int)
    requires IsInt64(n)
    ensures ReadInt(Print(n)) == Some(n)
  {
    StollPrint(n, []);
    assert Print(n) + [] == Print(n);
  }

  lemma AttachmentText(owner: int, id: int)
    ensures Attachment(owner, id) == "photo" + Print(owner) + "_" + Print(id)
  {
    hide Print;
  }

  /** The pair of 64-bit numbers comes back from the attachment, the smallest one included. */
  lemma AttachmentRoundTrip(owner: int, id: int)
    requires IsInt64(owner) && IsInt64(id)
    ensures ReadAttachment(Attachment(owner, id)) == Some((owner, id))
  {
    var tail := [UNDERSCORE] + Print(id);
    ExpectPrefix(PHOTO, Print(owner) + tail);
    PrintAlphabet(owner);
    BeforeFirst(Print(owner), UNDERSCORE, tail);
    assert tail[1..] == Print(id);
    ReadPrinted(owner);
    ReadPrinted(id);
  }

  function ReadResult(result: Result<Bytes, UploadFault>): Option<(int, int)> {
    match result
    case Err(_) => None
    case Ok(text) => ReadAttachment(text)
  }

  /**
   What either overload returns reads back as the very owner and id of the saved photo; both succeed
   exactly when the upload comes that far and the reply gives the two.
   */
  lemma UploadedIsReadable(b: Bot, group: Bytes, peer: int, name: Bytes, data: Bytes, filename: Bytes,
                           boundary: Bytes, replies: Replies)
    ensures var x := UploadFile(b, group, peer, Some((name, data)), boundary, replies);
            var y := UploadBuffer(b, group, peer, data, filename, boundary, replies);
            var pair := SavedPair(Parsed(replies.save));
            && (x.result.Ok? <==> |x.sent| == 3 && pair.Some?)
            && (y.result.Ok? <==> |y.sent| == 3 && pair.Some?)
            && ReadResult(x.result) == ReadResult(y.result) == (if |x.sent| == 3 then pair else None)
  {
    hide UploadFile, UploadBuffer, FinishFile, FinishBuffer, Parsed, SavedPair, Attachment, ReadAttachment, SameAddress;
    var x := UploadFile(b, group, peer, Some((name, data)), boundary, replies);
    var y := UploadBuffer(b, group, peer, data, filename, boundary, replies);
    var reply := Parsed(replies.save);
    FileEnd(b, group, peer, name, data, boundary, replies);
    BufferEnd(b, group, peer, data, filename, boundary, replies);
    FinishesPair(reply, x.sent);
    FinishesPair(reply, y.sent);
    OverloadsAgree(b, group, peer, name, data, filename, boundary, replies);
    if SavedPair(reply).Some? {
      PairReadable(reply);
    }
  }

  /** An upload that fails before the saved photo has sent at most two requests. */
  lemma FileEnd(b: Bot, group: Bytes, peer: int, name: Bytes, data: Bytes, boundary: Bytes, replies: Replies)
    ensures var x := UploadFile(b, group, peer, Some((name, data)), boundary, replies);
            if |x.sent| == 3 then x == FinishFile(Parsed(replies.save), x.sent) else x.result.Err?
  {
    hide RequestOf, Parsed, FinishFile, PhotoText, ServerText, Body, ParseHostPath;
    FinishSends(Parsed(replies.save));
  }

  lemma BufferEnd(b: Bot, group: Bytes, peer: int, data: Bytes, filename: Bytes, boundary: Bytes, replies: Replies)
    ensures var y := UploadBuffer(b, group, peer, data, filename, boundary, replies);
            if |y.sent| == 3 then y == FinishBuffer(Parsed(replies.save), y.sent) else y.result.Err?
  {
    hide RequestOf, Parsed, FinishBuffer, PhotoText, ServerText, Body, ParseHostPath;
    FinishSends(Parsed(replies.save));
  }

  lemma PairReadable(reply: Result<Json, Fault>)
    requires SavedPair(reply).Some?
    ensures var (owner, id) := SavedPair(reply).value;
            ReadAttachment(Attachment(owner, id)) == SavedPair(reply)
  {
    var (owner, id) := SavedPair(reply).value;
    hide Attachment, ReadAttachment, Stoll;
    AttachmentRoundTrip(owner, id);
  }

  /** A number and its canonical decimal text give the same id and the same photo parameter. */
  lemma TextOrNumber(n: int)
    requires IsInt64(n)
    ensures IdOf(Str(Print(n))) == IdOf(Num(n)) == Ok(n)
    ensures PhotoText(Str(Print(n))) == PhotoText(Num(n)) == Some(Print(n))
  {
    hide Stoll, Print;
    StollPrint(n, []);
    assert Print(n) + [] == Print(n);
  }

  /** For the server parameter they agree exactly when the number fits in an `int`: a larger one wraps. */
  lemma ServerTextOrNumber(n: int)
    requires IsInt64(n)
    ensures ServerText(Str(Print(n))) == Some(Print(n))
    ensures ServerText(Num(n)) == Some(Print(n)) <==> -0x8000_0000 <= n < 0x8000_0000
  {
    hide Print;
    if ServerText(Num(n)) == Some(Print(n)) {
      PrintInjective(Wrap32(n), n);
    }
  }
}

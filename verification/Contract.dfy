/** The version-1 message contract shared by every proper-scale service:
    the frames a client sends and receives, and the event that travels from
    the database through Kafka and Redis back to the sockets.

    Timestamps are integers with 0 for Go's zero time.  A JSON text is either
    a parsed document or malformed; encoding an event and decoding it again is
    a step between datatypes, so byte syntax is not modelled. */
module Contract {

  const VERSION := 1

  const SEND_FRAME_TYPE := "send"
  const ACCEPTED_FRAME_TYPE := "accepted"
  const REJECTED_FRAME_TYPE := "rejected"

  const INVALID_REQUEST := "invalid_request"
  const NOT_ACCEPTED := "not_accepted"

  datatype Option<+T> = None | Some(value: T)

  datatype Checked = Valid | Invalid(reason: string)

  datatype RawJson = Document(text: string) | Malformed(text: string)

  datatype SendRequest = SendRequest(
    frameType: string, version: int, clientMessageID: string, roomID: string, payload: RawJson)

  datatype Event = Event(
    version: int, messageID: string, clientMessageID: string,
    roomID: string, roomSeq: int, createdAt: int, payload: RawJson)

  datatype AcceptedAck = AcceptedAck(
    frameType: string, version: int, messageID: string, clientMessageID: string,
    roomID: string, roomSeq: int, createdAt: int)

  datatype RejectedAck = RejectedAck(
    frameType: string, version: int, clientMessageID: string, errorCode: string)

  /** An event as bytes on the wire: either the encoding of an event or
      something that does not decode to one. */
  datatype Doc = Encoded(event: Event) | Garbage(text: string)

  function Decode(doc: Doc): Option<Event>
  {
    if doc.Encoded? then Some(doc.event) else None
  }

  // ---------- strings.TrimSpace ----------

  predicate IsSpace(c: char)
  {
    c in "\t\n\r \U{000B}\U{000C}\U{0085}\U{00A0}\U{1680}\U{2028}\U{2029}\U{202F}\U{205F}\U{3000}"
    || '\U{2000}' <= c <= '\U{200A}'
  }

  function TrimSpace(s: string): string
  {
    if s == "" then ""
    else if IsSpace(s[0]) then TrimSpace(s[1..])
    else if IsSpace(s[|s| - 1]) then TrimSpace(s[..|s| - 1])
    else s
  }

  predicate Blank(s: string)
  {
    forall i :: 0 <= i < |s| ==> IsSpace(s[i])
  }

  /** Trimming leaves nothing exactly when the text is white space only, so
      the checks below ask for that directly. */
  lemma {:induction false} TrimSpaceEmpty(s: string)
    ensures TrimSpace(s) == "" <==> Blank(s)
  {
    if s != "" {
      if IsSpace(s[0]) {
        TrimSpaceEmpty(s[1..]);
        assert s == [s[0]] + s[1..];
      } else if IsSpace(s[|s| - 1]) {
        TrimSpaceEmpty(s[..|s| - 1]);
        assert !IsSpace(s[..|s| - 1][0]);
      } else {
        assert !IsSpace(s[0]);
      }
    }
  }

  /** What is left is a part of the text that starts and ends with no space,
      and nothing but spaces was cut off. */
  lemma {:induction false} TrimSpaceCuts(s: string) returns (i: nat, j: nat)
    ensures i <= j <= |s| && TrimSpace(s) == s[i..j]
    ensures Blank(s[..i]) && Blank(s[j..])
    ensures TrimSpace(s) != "" ==> !IsSpace(TrimSpace(s)[0]) && !IsSpace(TrimSpace(s)[|TrimSpace(s)| - 1])
  {
    hide IsSpace;
    var n := |s| - 1;
    if s == "" {
      i, j := 0, 0;
    } else if IsSpace(s[0]) {
      var a, b := TrimSpaceCuts(s[1..]);
      i, j := a + 1, b + 1;
      assert s[1..][a..b] == s[i..j] && s[j..] == s[1..][b..] && s[..i] == [s[0]] + s[1..][..a];
      BlankJoin([s[0]], s[1..][..a]);
    } else if IsSpace(s[n]) {
      i, j := TrimSpaceCuts(s[..n]);
      assert s[..n][i..j] == s[i..j] && s[j..] == s[..n][j..] + [s[n]] && s[..n][..i] == s[..i];
      BlankJoin(s[..n][j..], [s[n]]);
    } else {
      i, j := 0, |s|;
    }
  }

  lemma BlankJoin(a: string, b: string)
    requires Blank(a) && Blank(b)
    ensures Blank(a + b)
  {
    hide IsSpace;
  }

  // ---------- Validate ----------

  function ValidateSend(r: SendRequest): Checked
  {
    if r.frameType != SEND_FRAME_TYPE then Invalid("type must be send")
    else if r.version != VERSION then Invalid("version must be 1")
    else if Blank(r.clientMessageID) then Invalid("client_message_id is required")
    else if Blank(r.roomID) then Invalid("room_id is required")
    else if !r.payload.Document? then Invalid("payload must be valid JSON")
    else Valid
  }

  function ValidateEvent(e: Event): Checked
  {
    if e.version != VERSION then Invalid("version must be 1")
    else if Blank(e.messageID) then Invalid("message_id is required")
    else if Blank(e.clientMessageID) then Invalid("client_message_id is required")
    else if Blank(e.roomID) then Invalid("room_id is required")
    else if e.roomSeq < 1 then Invalid("room_seq must be positive")
    else if e.createdAt == 0 then Invalid("created_at is required")
    else if !e.payload.Document? then Invalid("payload must be valid JSON")
    else Valid
  }

  function ValidateAccepted(a: AcceptedAck): Checked
  {
    if a.frameType != ACCEPTED_FRAME_TYPE then Invalid("type must be accepted")
    else if a.version != VERSION then Invalid("version must be 1")
    else if Blank(a.messageID) then Invalid("message_id is required")
    else if Blank(a.clientMessageID) then Invalid("client_message_id is required")
    else if Blank(a.roomID) then Invalid("room_id is required")
    else if a.roomSeq < 1 then Invalid("room_seq must be positive")
    else if a.createdAt == 0 then Invalid("created_at is required")
    else Valid
  }

  function ValidateRejected(a: RejectedAck): Checked
  {
    if a.frameType != REJECTED_FRAME_TYPE then Invalid("type must be rejected")
    else if a.version != VERSION then Invalid("version must be 1")
    else if Blank(a.errorCode) then Invalid("error_code is required")
    else Valid
  }

  // ---------- what passes ----------

  /** A request passes exactly when it is a version-1 send frame with both
      identifiers and a JSON payload. */
  lemma SendPasses(r: SendRequest)
    ensures ValidateSend(r).Valid? <==>
              && r.frameType == "send" && r.version == 1
              && TrimSpace(r.clientMessageID) != "" && TrimSpace(r.roomID) != "" && r.payload.Document?
  {
    TrimSpaceEmpty(r.clientMessageID);
    TrimSpaceEmpty(r.roomID);
  }

  lemma EventPasses(e: Event)
    ensures ValidateEvent(e).Valid? <==>
              && e.version == 1 && TrimSpace(e.messageID) != "" && TrimSpace(e.clientMessageID) != ""
              && TrimSpace(e.roomID) != "" && e.roomSeq >= 1 && e.createdAt != 0 && e.payload.Document?
  {
    TrimSpaceEmpty(e.messageID);
    TrimSpaceEmpty(e.clientMessageID);
    TrimSpaceEmpty(e.roomID);
  }

  lemma AcceptedPasses(a: AcceptedAck)
    ensures ValidateAccepted(a).Valid? <==>
              && a.frameType == "accepted" && a.version == 1 && TrimSpace(a.messageID) != ""
              && TrimSpace(a.clientMessageID) != "" && TrimSpace(a.roomID) != "" && a.roomSeq >= 1 && a.createdAt != 0
  {
    TrimSpaceEmpty(a.messageID);
    TrimSpaceEmpty(a.clientMessageID);
    TrimSpaceEmpty(a.roomID);
  }

  lemma RejectedPasses(a: RejectedAck)
    ensures ValidateRejected(a).Valid? <==>
              a.frameType == "rejected" && a.version == 1 && TrimSpace(a.errorCode) != ""
  {
    TrimSpaceEmpty(a.errorCode);
  }

  function AckFor(e: Event): AcceptedAck
  {
    AcceptedAck(ACCEPTED_FRAME_TYPE, VERSION, e.messageID, e.clientMessageID, e.roomID, e.roomSeq, e.createdAt)
  }
}

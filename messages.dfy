/**
 * The chat `Message` record (models/Message.java): its constructors, the
 * Firestore map that writes the attachment fields only for a message that
 * has an attachment, and the attachment predicates.
 */
module Messages {
  import opened Common

  datatype Message = Message(
    content: Option<string>,
    senderName: Option<string>,
    senderId: Option<string>,
    senderEmail: Option<string>,
    timestamp: Option<int>,
    attachmentUrl: Option<string>,
    attachmentName: Option<string>,
    attachmentType: Option<string>,
    attachmentSize: int)

  /** The text-only constructor at instant `now`. */
  function TextMessage(content: Option<string>, senderName: Option<string>, senderId: Option<string>,
                       senderEmail: Option<string>, now: int): (m: Message)
    ensures m.content == content && m.senderName == senderName && m.senderId == senderId
    ensures m.senderEmail == senderEmail && m.timestamp == Some(now)
    ensures !HasAttachment(m) && !IsImageAttachment(m)
  {
    Message(content, senderName, senderId, senderEmail, Some(now), None, None, None, 0)
  }

  /** The constructor with an attachment, at instant `now`. */
  function AttachmentMessage(content: Option<string>, senderName: Option<string>, senderId: Option<string>,
                             senderEmail: Option<string>, url: Option<string>, name: Option<string>,
                             kind: Option<string>, size: int, now: int): (m: Message)
    ensures m.timestamp == Some(now) && m.attachmentUrl == url && m.attachmentName == name
    ensures m.attachmentType == kind && m.attachmentSize == size && m.content == content
    ensures HasAttachment(m) <==> !IsEmpty(url)
  {
    Message(content, senderName, senderId, senderEmail, Some(now), url, name, kind, size)
  }

  /** `hasAttachment()`: a non-null, non-empty attachment URL. */
  predicate HasAttachment(m: Message)
  {
    !IsEmpty(m.attachmentUrl)
  }

  /** `isImageAttachment()`: a non-null attachment type starting with "image/". */
  predicate IsImageAttachment(m: Message)
  {
    m.attachmentType.Some? && StartsWith(m.attachmentType.value, "image/")
  }

  const BaseKeys: set<string> := {"content", "senderName", "senderId", "senderEmail", "timestamp"}
  const AttachmentKeys: set<string> := {"attachmentUrl", "attachmentName", "attachmentType", "attachmentSize"}

  /** `message.toMap()`. */
  function ToMap(m: Message): (r: Doc)
    ensures BaseKeys <= r.Keys
    ensures HasAttachment(m) ==> r.Keys == BaseKeys + AttachmentKeys
    ensures !HasAttachment(m) ==> r.Keys == BaseKeys
    ensures "attachmentUrl" in r <==> HasAttachment(m)
    ensures HasAttachment(m) ==> r["attachmentUrl"] == VStr(m.attachmentUrl.value) && r["attachmentSize"] == VNum(m.attachmentSize)
    ensures r["content"] == StrValue(m.content) && r["timestamp"] == DateValue(m.timestamp)
  {
    var base := map[
      "content" := StrValue(m.content),
      "senderName" := StrValue(m.senderName),
      "senderId" := StrValue(m.senderId),
      "senderEmail" := StrValue(m.senderEmail),
      "timestamp" := DateValue(m.timestamp)
    ];
    if HasAttachment(m) then
      base["attachmentUrl" := StrValue(m.attachmentUrl)]
          ["attachmentName" := StrValue(m.attachmentName)]
          ["attachmentType" := StrValue(m.attachmentType)]
          ["attachmentSize" := VNum(m.attachmentSize)]
    else
      base
  }

  /** A message whose attachment is an image need not have an attachment URL: the two tests are independent. */
  lemma ImageTestIsIndependent()
    ensures var m := Message(None, None, None, None, None, None, None, Some("image/png"), 0);
            IsImageAttachment(m) && !HasAttachment(m) && "attachmentType" !in ToMap(m)
  {
    var m := Message(None, None, None, None, None, None, None, Some("image/png"), 0);
    assert StartsWith("image/png", "image/");
  }
}

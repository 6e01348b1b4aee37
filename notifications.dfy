/** Notification rendering and dispatch (lib/utils/notifications.ts): `{{key}}`
    substitution, the template and user gates, the per-channel flags, the single record
    written per call, and the sender/receiver fan-out for a shipment event. The mail
    transport's outcome, the clock and the application URL are parameters. */
module Notifications {
  import opened Common
  import opened Strings
  import opened Store

  // ---------------------------------------------------------------------------
  // Template rendering

  /** `{{key}}`. */
  function Placeholder(key: string): (p: string)
    ensures |p| == |key| + 4
    ensures p[0] == '{' && p[1] == '{'
    ensures forall i :: 0 <= i < |key| ==> p[i + 2] == key[i]
    ensures p[|key| + 2] == '}' && p[|key| + 3] == '}'
  {
    "{{" + key + "}}"
  }

  /** The text after substituting the first `|data|` keys in order, each key's value
      replacing every occurrence of its placeholder. */
  function Substitute(text: string, data: Variables): string
    decreases |data|
  {
    if data == [] then text
    else
      var last := data[|data| - 1];
      ReplaceAll(Substitute(text, data[..|data| - 1]), Placeholder(last.0), last.1)
  }

  function FullName(user: User): string {
    user.firstName + " " + user.lastName
  }

  /** `replaceVariables(text)`: the data keys, then `{{customerName}}` as the user's name. */
  function Render(text: string, data: Variables, user: User): string {
    ReplaceAll(Substitute(text, data), Placeholder(CustomerKey), FullName(user))
  }

  /** The loop of `replaceVariables`, reassigning the running text once per key. */
  method ReplaceVariables(text: string, data: Variables, user: User) returns (result: string)
    ensures result == Render(text, data, user)
  {
    result := text;
    var i := 0;
    while i < |data|
      invariant 0 <= i <= |data|
      invariant result == Substitute(text, data[..i])
    {
      assert data[..i + 1][..i] == data[..i];
      result := ReplaceAll(result, Placeholder(data[i].0), data[i].1);
      i := i + 1;
    }
    assert data[..i] == data;
    result := ReplaceAll(result, Placeholder(CustomerKey), FullName(user));
  }

  /** The value bound to `key`, first binding first. */
  function Lookup(data: Variables, key: string): (r: Option<string>)
    decreases |data|
    ensures r.Some? <==> exists i :: 0 <= i < |data| && data[i].0 == key
    ensures r.Some? ==> exists i :: 0 <= i < |data| && data[i] == (key, r.value)
  {
    if data == [] then None
    else
      var init := data[..|data| - 1];
      var found := Lookup(init, key);
      assert forall i :: 0 <= i < |init| ==> init[i] == data[i];
      if found.Some? then found
      else if data[|data| - 1].0 == key then Some(data[|data| - 1].1)
      else None
  }

  predicate NoBrace(s: string) {
    '{' !in s
  }

  /** A key a placeholder can be written with: no braces inside. */
  predicate PlainKey(k: string) {
    '{' !in k && '}' !in k
  }

  /** Text without an opening brace holds no placeholder. */
  lemma NoBraceNoPlaceholder(s: string, k: string)
    requires NoBrace(s)
    ensures forall i :: !OccursAt(s, Placeholder(k), i)
  {
    forall i | OccursAt(s, Placeholder(k), i) ensures false {
      OccurrencePrefix(s, Placeholder(k), i);
    }
  }

  /** Substitution leaves text without an opening brace as it is. */
  lemma {:induction false} SubstituteNoBrace(text: string, data: Variables)
    requires NoBrace(text)
    ensures Substitute(text, data) == text
    decreases |data|
  {
    if data != [] {
      SubstituteNoBrace(text, data[..|data| - 1]);
      var last := data[|data| - 1];
      NoBraceNoPlaceholder(text, last.0);
      ReplaceAbsent(text, Placeholder(last.0), last.1);
    }
  }

  /** A template without placeholders renders to itself. */
  lemma RenderNoBrace(text: string, data: Variables, user: User)
    requires NoBrace(text)
    ensures Render(text, data, user) == text
  {
    SubstituteNoBrace(text, data);
    NoBraceNoPlaceholder(text, CustomerKey);
    ReplaceAbsent(text, Placeholder(CustomerKey), FullName(user));
  }

  /** Where each character of `a + {{k}} + b` comes from. */
  lemma Layout(a: string, k: string, b: string)
    ensures var s := a + Placeholder(k) + b;
      && |s| == |a| + |k| + 4 + |b|
      && (forall j :: 0 <= j < |a| ==> s[j] == a[j])
      && s[|a|] == '{' && s[|a| + 1] == '{'
      && (forall i :: 0 <= i < |k| ==> s[|a| + 2 + i] == k[i])
      && s[|a| + 2 + |k|] == '}' && s[|a| + 3 + |k|] == '}'
      && (forall j :: 0 <= j < |b| ==> s[|a| + |k| + 4 + j] == b[j])
  {
  }

  /** In `a + {{k}} + b`, with no brace in `a`, `b` or `k`, the two braces that open the
      placeholder are the only opening braces. */
  lemma BracePositions(a: string, k: string, b: string)
    requires NoBrace(a) && NoBrace(b) && PlainKey(k)
    ensures var s := a + Placeholder(k) + b;
      forall i :: 0 <= i < |s| && i != |a| && i != |a| + 1 ==> s[i] != '{'
  {
    var s := a + Placeholder(k) + b;
    Layout(a, k, b);
    forall i | 0 <= i < |s| && i != |a| && i != |a| + 1 ensures s[i] != '{' {
      if i < |a| {
        assert s[i] == a[i];
      } else if i < |a| + 2 + |k| {
        assert s[i] == k[i - |a| - 2];
      } else if i >= |a| + |k| + 4 {
        assert s[i] == b[i - |a| - |k| - 4];
      }
    }
  }

  /** The index of the first closing brace of `t`, or `|t|` when there is none. */
  function CloseIndex(t: string): (n: nat)
    ensures n <= |t|
  {
    if t == [] then 0 else if t[0] == '}' then 0 else 1 + CloseIndex(t[1..])
  }

  /** When `t` starts with a brace-free key followed by `}`, that brace is the first. */
  lemma {:induction false} CloseIndexOf(t: string, k: string)
    requires PlainKey(k) && |k| < |t|
    requires forall i :: 0 <= i < |k| ==> t[i] == k[i]
    requires t[|k|] == '}'
    ensures CloseIndex(t) == |k|
  {
    if k != [] {
      assert t[0] == k[0];
      assert PlainKey(k[1..]) by {
        assert forall c :: c in k[1..] ==> c in k;
      }
      CloseIndexOf(t[1..], k[1..]);
    }
  }

  /** In `a + {{k}} + b`, with no brace in `a`, `b` or the keys, a placeholder occurs only
      where `{{k}}` stands, and only for the key `k` itself. */
  lemma OnlyOccurrence(a: string, k: string, b: string, k2: string, j: int)
    requires NoBrace(a) && NoBrace(b) && PlainKey(k) && PlainKey(k2)
    requires OccursAt(a + Placeholder(k) + b, Placeholder(k2), j)
    ensures j == |a| && k2 == k
  {
    var s := a + Placeholder(k) + b;
    var p := Placeholder(k2);
    Layout(a, k, b);
    BracePositions(a, k, b);
    OccurrencePrefix(s, p, j);
    assert j == |a|;
    forall i | 0 <= i < |p| ensures s[j + i] == p[i] {
      assert s[j..j + |p|][i] == p[i];
    }
    var t := s[j + 2..];
    CloseIndexOf(t, k);
    CloseIndexOf(t, k2);
    forall i | 0 <= i < |k| ensures k2[i] == k[i] {
      assert t[i] == s[j + 2 + i];
    }
  }

  /** Replacing the one placeholder of `a + {{k}} + b` by `v`. */
  lemma ReplaceSingle(a: string, k: string, b: string, v: string)
    requires NoBrace(a) && NoBrace(b) && PlainKey(k)
    ensures ReplaceAll(a + Placeholder(k) + b, Placeholder(k), v) == a + v + b
  {
    var s := a + Placeholder(k) + b;
    var p := Placeholder(k);
    assert s[|a|..|a| + |p|] == p;
    forall j | 0 <= j < |a| ensures !OccursAt(s, p, j) {
      if OccursAt(s, p, j) {
        OnlyOccurrence(a, k, b, k, j);
      }
    }
    ReplaceLeftmost(s, p, v, |a|);
    assert s[..|a|] == a;
    assert s[|a| + |p|..] == b;
    NoBraceNoPlaceholder(b, k);
    ReplaceAbsent(b, p, v);
  }

  /** Replacing a placeholder of another key leaves `a + {{k}} + b` unchanged. */
  lemma ReplaceOther(a: string, k: string, b: string, k2: string, v: string)
    requires NoBrace(a) && NoBrace(b) && PlainKey(k) && PlainKey(k2) && k2 != k
    ensures ReplaceAll(a + Placeholder(k) + b, Placeholder(k2), v) == a + Placeholder(k) + b
  {
    var s := a + Placeholder(k) + b;
    forall j ensures !OccursAt(s, Placeholder(k2), j) {
      if OccursAt(s, Placeholder(k2), j) {
        OnlyOccurrence(a, k, b, k2, j);
      }
    }
    ReplaceAbsent(s, Placeholder(k2), v);
  }

  /** Keys and values that keep the single-placeholder analysis exact. */
  predicate PlainData(data: Variables) {
    forall i :: 0 <= i < |data| ==> PlainKey(data[i].0) && NoBrace(data[i].1)
  }

  /** Substituting into a template with one placeholder: the value of its key when the
      data binds it (the first binding), and the placeholder verbatim otherwise. */
  lemma {:induction false} SubstituteSingle(a: string, k: string, b: string, data: Variables)
    requires NoBrace(a) && NoBrace(b) && PlainKey(k) && PlainData(data)
    ensures Substitute(a + Placeholder(k) + b, data)
            == if Lookup(data, k).Some? then a + Lookup(data, k).value + b else a + Placeholder(k) + b
    decreases |data|
  {
    var s := a + Placeholder(k) + b;
    if data != [] {
      var init := data[..|data| - 1];
      var last := data[|data| - 1];
      assert PlainData(init) by {
        forall i | 0 <= i < |init| ensures PlainKey(init[i].0) && NoBrace(init[i].1) {
          assert init[i] == data[i];
        }
      }
      SubstituteSingle(a, k, b, init);
      assert PlainKey(last.0) && NoBrace(last.1);
      if Lookup(init, k).Some? {
        var t := a + Lookup(init, k).value + b;
        assert NoBrace(t) by {
          assert exists i :: 0 <= i < |init| && init[i] == (k, Lookup(init, k).value);
          var i :| 0 <= i < |init| && init[i] == (k, Lookup(init, k).value);
          assert init[i] == data[i];
        }
        NoBraceNoPlaceholder(t, last.0);
        ReplaceAbsent(t, Placeholder(last.0), last.1);
      } else if last.0 == k {
        ReplaceSingle(a, k, b, last.1);
      } else {
        ReplaceOther(a, k, b, last.0, last.1);
      }
    }
  }

  /** What a one-placeholder template renders to: the data's value for its key, else the
      user's full name for `{{customerName}}`, else the placeholder left verbatim. */
  function Filled(k: string, data: Variables, user: User): string {
    if Lookup(data, k).Some? then Lookup(data, k).value
    else if k == CustomerKey then FullName(user)
    else Placeholder(k)
  }

  /** The key `replaceVariables` fills with the user's name. */
  const CustomerKey: string := "customerName"

  lemma CustomerKeyPlain()
    ensures PlainKey(CustomerKey)
  {
    assert forall i :: 0 <= i < |CustomerKey| ==> CustomerKey[i] != '{' && CustomerKey[i] != '}';
  }

  lemma RenderSingle(a: string, k: string, b: string, data: Variables, user: User)
    requires NoBrace(a) && NoBrace(b) && PlainKey(k) && PlainData(data)
    requires NoBrace(FullName(user))
    ensures Render(a + Placeholder(k) + b, data, user) == a + Filled(k, data, user) + b
  {
    SubstituteSingle(a, k, b, data);
    CustomerKeyPlain();
    var name := FullName(user);
    if Lookup(data, k).Some? {
      var v := Lookup(data, k).value;
      var t := a + v + b;
      assert NoBrace(v) by {
        var i :| 0 <= i < |data| && data[i] == (k, v);
      }
      assert NoBrace(t);
      NoBraceNoPlaceholder(t, CustomerKey);
      ReplaceAbsent(t, Placeholder(CustomerKey), name);
    } else if k == CustomerKey {
      ReplaceSingle(a, k, b, name);
    } else {
      ReplaceOther(a, k, b, CustomerKey, name);
    }
  }

  // ---------------------------------------------------------------------------
  // Dispatch

  /** The arguments of one `sendNotification` call. */
  datatype Request = Request(userId: string, event: NotificationEvent, kind: NotificationType, data: Variables)

  /** An email handed to the mail transport. */
  datatype Mail = Mail(to: string, subject: string, text: string)

  /** What `sendNotification` returns: nothing when a gate stops it, else the two flags. */
  datatype SendOutcome = Skipped | Sent(emailSent: bool, smsSent: bool)

  predicate WantsEmail(kind: NotificationType) {
    kind == Email || kind == Both
  }

  predicate WantsSms(kind: NotificationType) {
    kind == Sms || kind == Both
  }

  /** The email branch is entered: the channel is asked for and the template has a body. */
  predicate EmailAttempted(kind: NotificationType, t: Template) {
    WantsEmail(kind) && Truthy(t.emailBody)
  }

  /** The text message counts as sent: channel asked for, body present, user has a phone. */
  predicate SmsSent(kind: NotificationType, t: Template, user: User) {
    WantsSms(kind) && Truthy(t.smsBody) && Truthy(user.phone)
  }

  /** `emailSubject || event`, before substitution. */
  function TitleSource(t: Template, event: NotificationEvent): string {
    if Truthy(t.emailSubject) then t.emailSubject.value else EventName(event)
  }

  /** `emailBody || smsBody || ''`, before substitution. */
  function MessageSource(t: Template): string {
    if Truthy(t.emailBody) then t.emailBody.value
    else if Truthy(t.smsBody) then t.smsBody.value
    else ""
  }

  /** The row written for a request that passed both gates; `emailOk` is whether the
      transport accepted the mail. */
  function Record(req: Request, t: Template, user: User, emailOk: bool, now: Instant): Notification {
    Notification(req.userId, req.kind, req.event,
                 Render(TitleSource(t, req.event), req.data, user),
                 Render(MessageSource(t), req.data, user),
                 EmailAttempted(req.kind, t) && emailOk,
                 SmsSent(req.kind, t, user),
                 req.data, false, now)
  }

  /** The record one call writes: none when the event has no active template or the user
      does not exist. */
  function Dispatch(templates: map<NotificationEvent, Template>, users: seq<User>, req: Request,
                    emailOk: bool, now: Instant): (r: Option<Notification>)
    ensures r.None? <==> req.event !in templates || !templates[req.event].isActive
                         || FindUserById(users, req.userId).None?
    ensures r.Some? ==> r.value.userId == req.userId && r.value.event == req.event
                        && r.value.notificationType == req.kind && r.value.metadata == req.data
                        && !r.value.isRead && r.value.createdAt == now
    ensures r.Some? ==> (r.value.emailSent <==>
                           req.kind != Sms && Truthy(templates[req.event].emailBody) && emailOk)
    ensures r.Some? ==> (r.value.smsSent <==>
                           req.kind != Email && Truthy(templates[req.event].smsBody)
                           && Truthy(FindUserById(users, req.userId).value.phone))
    ensures r.Some? ==>
      var t := templates[req.event];
      var user := FindUserById(users, req.userId).value;
      && r.value.title == Render(if Truthy(t.emailSubject) then t.emailSubject.value else EventName(req.event),
                                 req.data, user)
      && r.value.message == Render(if Truthy(t.emailBody) then t.emailBody.value
                                   else if Truthy(t.smsBody) then t.smsBody.value
                                   else "", req.data, user)
  {
    if req.event !in templates || !templates[req.event].isActive then None
    else
      var user := FindUserById(users, req.userId);
      if user.None? then None
      else Some(Record(req, templates[req.event], user.value, emailOk, now))
  }

  function AsSeq<T>(o: Option<T>): (r: seq<T>)
    ensures |r| <= 1 && (o.Some? <==> |r| == 1) && (o.Some? ==> r[0] == o.value)
  {
    if o.Some? then [o.value] else []
  }

  /** `sendNotification`: the two gates, the email attempt, the text message, and one
      notification row. The mail it hands to the transport is returned; whether the
      transport accepted it is `emailOk`. */
  method SendNotification(db: Database, req: Request, emailOk: bool, now: Instant)
      returns (outcome: SendOutcome, mail: Option<Mail>)
    modifies db`notifications
    ensures db.notifications == old(db.notifications) + AsSeq(Dispatch(db.templates, db.users, req, emailOk, now))
    ensures outcome.Skipped? <==> Dispatch(db.templates, db.users, req, emailOk, now).None?
    ensures outcome.Sent? ==>
      var n := Dispatch(db.templates, db.users, req, emailOk, now).value;
      outcome.emailSent == n.emailSent && outcome.smsSent == n.smsSent
    ensures mail.Some? ==> outcome.Sent?
    ensures outcome.Sent? ==>
      var t := db.templates[req.event];
      var user := FindUserById(db.users, req.userId).value;
      (mail.Some? <==> EmailAttempted(req.kind, t))
      && (mail.Some? ==> mail.value == Mail(user.email, Render(t.emailSubject.GetOr(""), req.data, user),
                                            Render(t.emailBody.value, req.data, user)))
  {
    mail := None;
    if req.event !in db.templates || !db.templates[req.event].isActive {
      return Skipped, None;
    }
    var template := db.templates[req.event];
    var found := FindUserById(db.users, req.userId);
    if found.None? {
      return Skipped, None;
    }
    var user := found.value;

    var emailSent := false;
    var smsSent := false;
    if WantsEmail(req.kind) && Truthy(template.emailBody) {
      var subject := ReplaceVariables(template.emailSubject.GetOr(""), req.data, user);
      var text := ReplaceVariables(template.emailBody.value, req.data, user);
      mail := Some(Mail(user.email, subject, text));
      if emailOk {
        emailSent := true;
      }
    }
    if WantsSms(req.kind) && Truthy(template.smsBody) && Truthy(user.phone) {
      smsSent := true;
    }

    var title := ReplaceVariables(TitleSource(template, req.event), req.data, user);
    var message := ReplaceVariables(MessageSource(template), req.data, user);
    var n := Notification(req.userId, req.kind, req.event, title, message, emailSent, smsSent,
                          req.data, false, now);
    assert n == Record(req, template, user, emailOk, now);
    db.notifications := db.notifications + [n];
    outcome := Sent(emailSent, smsSent);
  }

  /** No event name holds a brace. */
  lemma EventNameNoBrace(e: NotificationEvent)
    ensures NoBrace(EventName(e))
  {
    match e
    case PackageReceived =>
    case InTransitEvent =>
    case OutForDeliveryEvent =>
    case DeliveredEvent =>
    case FailedDelivery =>
  }

  /** A template without a subject titles its notification with the event's name. */
  lemma TitleFallsBackToEvent(req: Request, t: Template, user: User, emailOk: bool, now: Instant)
    requires !Truthy(t.emailSubject)
    ensures Record(req, t, user, emailOk, now).title == EventName(req.event)
  {
    EventNameNoBrace(req.event);
    RenderNoBrace(EventName(req.event), req.data, user);
  }

  // ---------------------------------------------------------------------------
  // Shipment notifications

  /** The template variables of a shipment; `appUrl` is the configured application URL and
      `formatDate` the locale date formatter. */
  function ShipmentVariables(s: Shipment, appUrl: string, formatDate: Instant -> string): (data: Variables)
    ensures |data| == 4
    ensures data[0] == ("trackingNumber", s.trackingNumber)
    ensures data[1] == ("trackingUrl", appUrl + "/track/" + s.trackingNumber)
    ensures data[2] == ("destination", s.receiver.city + ", " + s.receiver.state)
    ensures data[3].0 == "estimatedDelivery"
    ensures s.estimatedDelivery.None? ==> data[3].1 == "TBD"
    ensures s.estimatedDelivery.Some? && formatDate(s.estimatedDelivery.value) != "" ==>
              data[3].1 == formatDate(s.estimatedDelivery.value)
    ensures s.estimatedDelivery.Some? && formatDate(s.estimatedDelivery.value) == "" ==> data[3].1 == "TBD"
    ensures data[3].1 != ""
  {
    var date := if s.estimatedDelivery.Some? then formatDate(s.estimatedDelivery.value) else "";
    [("trackingNumber", s.trackingNumber),
     ("trackingUrl", appUrl + "/track/" + s.trackingNumber),
     ("destination", s.receiver.city + ", " + s.receiver.state),
     ("estimatedDelivery", if date != "" then date else "TBD")]
  }

  /** The users a shipment event is sent to: the sender, then the receiver when asked for
      and registered. */
  function Recipients(s: Shipment, receiverNotify: bool): (ids: seq<string>)
    ensures 1 <= |ids| <= 2 && ids[0] == s.senderId
    ensures |ids| == 2 <==> receiverNotify && Truthy(s.receiverId)
    ensures |ids| == 2 ==> ids[1] == s.receiverId.value
  {
    [s.senderId] + (if receiverNotify && Truthy(s.receiverId) then [s.receiverId.value] else [])
  }

  /** The records written for the recipients `ids`, each request of kind BOTH; the
      transport's answer for the i-th recipient is `emailOk[i]`. */
  function FanOut(templates: map<NotificationEvent, Template>, users: seq<User>, ids: seq<string>,
                  event: NotificationEvent, data: Variables, emailOk: seq<bool>, now: Instant): (r: seq<Notification>)
    requires |emailOk| == |ids|
    decreases |ids|
  {
    if ids == [] then []
    else AsSeq(Dispatch(templates, users, Request(ids[0], event, Both, data), emailOk[0], now))
         + FanOut(templates, users, ids[1..], event, data, emailOk[1..], now)
  }

  /** The records one `sendShipmentNotification` call writes. */
  function ShipmentRecords(templates: map<NotificationEvent, Template>, users: seq<User>,
                           shipments: seq<Shipment>, shipmentId: string, event: NotificationEvent,
                           receiverNotify: bool, appUrl: string, formatDate: Instant -> string,
                           emailOk: seq<bool>, now: Instant): seq<Notification>
    requires |emailOk| == 2
  {
    var found := FindShipmentById(shipments, shipmentId);
    if found.None? then []
    else
      var ids := Recipients(found.value, receiverNotify);
      FanOut(templates, users, ids, event, ShipmentVariables(found.value, appUrl, formatDate),
             emailOk[..|ids|], now)
  }

  /** `sendShipmentNotification`: look the shipment up, build its variables, notify the
      sender, then the receiver when asked for and registered. */
  method SendShipmentNotification(db: Database, shipmentId: string, event: NotificationEvent,
                                  receiverNotify: bool, appUrl: string, formatDate: Instant -> string,
                                  emailOk: seq<bool>, now: Instant)
    requires |emailOk| == 2
    modifies db`notifications
    ensures db.notifications == old(db.notifications)
              + ShipmentRecords(db.templates, db.users, db.shipments, shipmentId, event, receiverNotify,
                                appUrl, formatDate, emailOk, now)
  {
    var found := FindShipmentById(db.shipments, shipmentId);
    if found.None? {
      return;
    }
    var shipment := found.value;
    var data := ShipmentVariables(shipment, appUrl, formatDate);
    ghost var ids := Recipients(shipment, receiverNotify);
    ghost var before := db.notifications;
    ghost var first := Dispatch(db.templates, db.users, Request(shipment.senderId, event, Both, data), emailOk[0], now);
    var _, _ := SendNotification(db, Request(shipment.senderId, event, Both, data), emailOk[0], now);
    if receiverNotify && Truthy(shipment.receiverId) {
      ghost var second := Dispatch(db.templates, db.users, Request(shipment.receiverId.value, event, Both, data),
                                   emailOk[1], now);
      ghost var middle := db.notifications;
      var _, _ := SendNotification(db, Request(shipment.receiverId.value, event, Both, data), emailOk[1], now);
      assert db.notifications == middle + AsSeq(second);
      AppendAssociative(before, AsSeq(first), AsSeq(second));
      FanOutPair(db.templates, db.users, ids, event, data, emailOk[..2], now);
    } else {
      FanOutSingle(db.templates, db.users, ids, event, data, emailOk[..1], now);
    }
  }

  lemma AppendAssociative<T>(a: seq<T>, b: seq<T>, c: seq<T>)
    ensures (a + b) + c == a + (b + c)
  {
  }

  lemma FanOutSingle(templates: map<NotificationEvent, Template>, users: seq<User>, ids: seq<string>,
                     event: NotificationEvent, data: Variables, emailOk: seq<bool>, now: Instant)
    requires |ids| == |emailOk| == 1
    ensures FanOut(templates, users, ids, event, data, emailOk, now)
            == AsSeq(Dispatch(templates, users, Request(ids[0], event, Both, data), emailOk[0], now))
  {
    assert FanOut(templates, users, ids[1..], event, data, emailOk[1..], now) == [];
  }

  lemma FanOutPair(templates: map<NotificationEvent, Template>, users: seq<User>, ids: seq<string>,
                   event: NotificationEvent, data: Variables, emailOk: seq<bool>, now: Instant)
    requires |ids| == |emailOk| == 2
    ensures FanOut(templates, users, ids, event, data, emailOk, now)
            == AsSeq(Dispatch(templates, users, Request(ids[0], event, Both, data), emailOk[0], now))
               + AsSeq(Dispatch(templates, users, Request(ids[1], event, Both, data), emailOk[1], now))
  {
    FanOutSingle(templates, users, ids[1..], event, data, emailOk[1..], now);
  }

  /** Every record a shipment event writes goes to the sender or to the registered
      receiver, for that event, over both channels, with the shipment's variables; there
      are at most two, and at most one when the receiver is not to be notified. */
  lemma {:induction false} FanOutRecords(templates: map<NotificationEvent, Template>, users: seq<User>,
                                         ids: seq<string>, event: NotificationEvent, data: Variables,
                                         emailOk: seq<bool>, now: Instant)
    requires |emailOk| == |ids|
    ensures var r := FanOut(templates, users, ids, event, data, emailOk, now);
      |r| <= |ids|
      && forall n :: n in r ==> n.userId in ids && n.event == event && n.notificationType == Both
                                && n.metadata == data
    decreases |ids|
  {
    if ids != [] {
      FanOutRecords(templates, users, ids[1..], event, data, emailOk[1..], now);
    }
  }

  lemma ShipmentRecordsRecipients(templates: map<NotificationEvent, Template>, users: seq<User>,
                                  shipments: seq<Shipment>, shipmentId: string, event: NotificationEvent,
                                  receiverNotify: bool, appUrl: string, formatDate: Instant -> string,
                                  emailOk: seq<bool>, now: Instant)
    requires |emailOk| == 2
    ensures var r := ShipmentRecords(templates, users, shipments, shipmentId, event, receiverNotify,
                                     appUrl, formatDate, emailOk, now);
      var found := FindShipmentById(shipments, shipmentId);
      && (found.None? ==> r == [])
      && |r| <= (if receiverNotify then 2 else 1)
      && (found.Some? ==> forall n :: n in r ==>
            (n.userId == found.value.senderId || (receiverNotify && found.value.receiverId == Some(n.userId)))
            && n.event == event && n.notificationType == Both
            && n.metadata == ShipmentVariables(found.value, appUrl, formatDate))
  {
    var found := FindShipmentById(shipments, shipmentId);
    if found.Some? {
      var ids := Recipients(found.value, receiverNotify);
      FanOutRecords(templates, users, ids, event, ShipmentVariables(found.value, appUrl, formatDate),
                    emailOk[..|ids|], now);
    }
  }
}

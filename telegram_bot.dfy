/** The Telegram relay bot: it polls the notifications endpoint every few
    seconds, renders each record it has not delivered before into a chat
    message, and remembers delivered ids in a bounded "seen" set. The
    `/start` command registers the chat that receives the messages, and the
    "Уведомления" button re-sends everything the endpoint returns.

    The HTTP client, the Telegram sends and the date library are inputs:
    a fetch is given as its outcome, a send as the position at which it
    failed, and date parsing as a partial function. */
module TelegramBot {
  import opened Wrappers
  import opened Text

  /** One ordered product: its `name` as Python renders it (`None` when the
      key is missing), and its whole-number quantity and unit price. */
  datatype Item = Item(name: Option<string>, quantity: int, price: int)

  /** A notification record as the endpoint returns it. A text field is
      `None` when its key is missing and otherwise holds the Python `str()`
      of its value. `createdAt` is `None` when the key is missing or its
      value is not a string. `items` is `[]` when the key is missing, null or
      an empty list; `total` is `None` when the key is missing or null.
      `repr` is `str(notification)`, the fallback de-duplication key. */
  datatype Notification = Notification(
    id: Option<string>,
    name: Option<string>,
    phone: Option<string>,
    email: Option<string>,
    description: Option<string>,
    isRead: bool,
    createdAt: Option<string>,
    items: seq<Item>,
    address: Option<string>,
    comments: Option<string>,
    total: Option<int>,
    repr: string)

  /** The value `poll_notifications` remembers a record by: its `id`, or the
      text of the whole record when it has none. */
  datatype Key = IdKey(id: string) | ReprKey(repr: string)

  /** The body of a 200 response: a JSON list, any other JSON value (taken
      as a single record), or a body that does not parse as JSON. */
  datatype Body = ListBody(records: seq<Notification>) | SingleBody(record: Notification) | Unparsable

  /** What the GET request produced: an exception (timeout, refused
      connection) or a response with its status code. */
  datatype Response = Failed | Answered(status: int, body: Body)

  /** One `bot.send_message(CHAT_ID, text)` call. */
  datatype Send = Send(chat: Option<string>, text: string)

  const Dash := "—"
  const OrderMarker := "###### НОВЫЙ ЗАКАЗ ######"
  const SectionRule := "======"
  const ItemsHeading := "ЗАКАЗАННЫЕ ТОВАРЫ"
  const Unavailable := "Информация о товарах недоступна"
  const UnknownDate := "Неизвестно"
  const NoTotal := "Не указана"
  const OrderTitle := "🛒 НОВЫЙ ЗАКАЗ\n\n"
  const ConsultationTitle := "📌 Новое уведомление\n\n"
  const StartReply := "Бот запущен и готов к работе!"
  const NothingNew := "Нет новых уведомлений."

  /** Size above which the seen set is compacted, and its size afterwards. */
  const Capacity := 1000
  const Retained := 500

  // ---------------------------------------------------------------------
  // fetch_notifications

  /** `fetch_notifications`: a list body as it is, any other JSON body as a
      one-element list, and `[]` for a non-200 status, an unparsable body or
      an exception. */
  function Fetch(resp: Response): (r: seq<Notification>)
    ensures resp.Answered? && resp.status == 200 && resp.body.ListBody? ==> r == resp.body.records
    ensures resp.Answered? && resp.status == 200 && resp.body.SingleBody? ==> r == [resp.body.record]
    ensures resp.Failed? || resp.status != 200 || resp.body.Unparsable? ==> r == []
  {
    match resp
    case Failed => []
    case Answered(status, body) =>
      if status != 200 then []
      else match body
        case ListBody(records) => records
        case SingleBody(record) => [record]
        case Unparsable => []
  }

  // ---------------------------------------------------------------------
  // format_notification

  /** The description with its default. */
  function Description(n: Notification): string
  {
    n.description.GetOr(Dash)
  }

  /** The order layout is used exactly when the description holds the marker. */
  predicate IsOrder(n: Notification)
  {
    Contains(Description(n), OrderMarker)
  }

  /** A record without a description is never rendered as an order. */
  lemma NoDescriptionIsConsultation(n: Notification)
    requires n.description.None?
    ensures !IsOrder(n)
  {
    ContainsIff(Dash, OrderMarker);
  }

  /** The creation date: `parse` stands for `fromisoformat` after the `Z`
      suffix is rewritten to `+00:00`, the conversion to Moscow time and
      `strftime("%d.%m.%Y %H:%M")`; any failure, and a missing or non-string
      value, gives "Неизвестно". */
  function DateText(createdAt: Option<string>, parse: string -> Option<string>): (r: string)
    ensures createdAt.None? ==> r == UnknownDate
    ensures createdAt.Some? && parse(ReplaceAll(createdAt.value, "Z", "+00:00")).None? ==> r == UnknownDate
    ensures createdAt.Some? && parse(ReplaceAll(createdAt.value, "Z", "+00:00")).Some? ==>
              r == parse(ReplaceAll(createdAt.value, "Z", "+00:00")).value
  {
    match createdAt
    case None => UnknownDate
    case Some(s) => parse(ReplaceAll(s, "Z", "+00:00")).GetOr(UnknownDate)
  }

  /** The four lines rendered for the item at position `k` (counted from 1). */
  function ItemBlock(k: nat, it: Item): string
  {
    "📦 Товар " + NatToString(k) + ": " + it.name.GetOr("None") + "\n"
    + "   Количество: " + IntToString(it.quantity) + " шт.\n"
    + "   Цена: " + IntToString(it.price) + " ₽\n"
    + "   Сумма: " + IntToString(it.price * it.quantity) + " ₽\n\n"
  }

  /** The blocks `block` renders for `items`, numbered from `k` in list
      order. */
  function NumberedBlocks(items: seq<Item>, k: nat, block: (nat, Item) -> string): string
    decreases |items|
  {
    if items == [] then "" else block(k, items[0]) + NumberedBlocks(items[1..], k + 1, block)
  }

  /** The item blocks of `items`, numbered from `k` in list order. */
  function ItemLines(items: seq<Item>, k: nat): string
  {
    NumberedBlocks(items, k, ItemBlock)
  }

  /** Appending an item to numbered blocks appends its block, numbered
      after all earlier ones. */
  lemma {:induction false} NumberedBlocksAppend(items: seq<Item>, it: Item, k: nat, block: (nat, Item) -> string)
    ensures NumberedBlocks(items + [it], k, block) == NumberedBlocks(items, k, block) + block(k + |items|, it)
    decreases |items|
  {
    if items == [] {
      assert items + [it] == [it];
      assert [it][1..] == [];
    } else {
      assert (items + [it])[1..] == items[1..] + [it];
      NumberedBlocksAppend(items[1..], it, k + 1, block);
    }
  }

  /** Appending an item appends its block, numbered after all earlier ones:
      the rendering built from the front agrees with the `+=` loop that
      builds it from the back. */
  lemma ItemLinesAppend(items: seq<Item>, it: Item, k: nat)
    ensures ItemLines(items + [it], k) == ItemLines(items, k) + ItemBlock(k + |items|, it)
  {
    NumberedBlocksAppend(items, it, k, ItemBlock);
  }

  /** Rendering one more item of a list appends its block. */
  lemma ItemLinesPrefixStep(items: seq<Item>, i: nat)
    requires i < |items|
    ensures ItemLines(items[..i + 1], 1) == ItemLines(items[..i], 1) + ItemBlock(i + 1, items[i])
  {
    assert items[..i + 1] == items[..i] + [items[i]];
    ItemLinesAppend(items[..i], items[i], 1);
  }

  /** The loop of `format_notification` over `enumerate(items)`. */
  method RenderItems(items: seq<Item>) returns (text: string)
    ensures text == ItemLines(items, 1)
  {
    text := "";
    var i := 0;
    while i < |items|
      invariant 0 <= i <= |items|
      invariant text == ItemLines(items[..i], 1)
    {
      ItemLinesPrefixStep(items, i);
      text := text + ItemBlock(i + 1, items[i]);
      i := i + 1;
    }
    assert items[..i] == items;
  }

  /** The item text taken from the description when the record has no
      items: the first "======" section naming the ordered goods, with every
      copy of that heading removed and the whitespace around it stripped, or
      "Информация о товарах недоступна" when no section names them. */
  function ItemsFallback(desc: string): (r: string)
    ensures FirstWith(Split(desc, SectionRule), ItemsHeading).None? ==> r == Unavailable
    ensures FirstWith(Split(desc, SectionRule), ItemsHeading).Some? ==>
              r == Strip(ReplaceAll(Split(desc, SectionRule)[FirstWith(Split(desc, SectionRule), ItemsHeading).value], ItemsHeading, ""))
  {
    var sections := Split(desc, SectionRule);
    match FirstWith(sections, ItemsHeading)
    case None => Unavailable
    case Some(j) => Strip(ReplaceAll(sections[j], ItemsHeading, ""))
  }

  /** The item text of an order. */
  function ItemsText(n: Notification): string
  {
    if |n.items| > 0 then ItemLines(n.items, 1) else ItemsFallback(Description(n))
  }

  /** The total: "Не указана" when missing or zero, otherwise the digits in
      groups of three separated by spaces, followed by " ₽". */
  function TotalText(total: Option<int>): string
  {
    if total.None? || total.value == 0 then NoTotal else GroupedInt(total.value) + " ₽"
  }

  /** Removing the group separators from a rendered total gives the plain
      decimal rendering of the total. */
  lemma TotalDigits(t: int)
    requires t != 0
    ensures RemoveSpaces(TotalText(Some(t))) == IntToString(t) + "₽"
  {
    assert TotalText(Some(t)) == GroupedInt(t) + " ₽";
    RemoveSpacesAppend(GroupedInt(t), " ₽");
    assert RemoveSpaces(" ₽") == "₽" by {
      assert " ₽"[1..] == "₽";
      assert "₽"[1..] == "";
    }
    GroupedIntDigits(t);
  }

  /** A rendered total is its sign, then its digit groups separated by single
      spaces (a leading group of one to three digits, the others of exactly
      three), then the rouble sign. */
  lemma TotalGroups(t: int)
    requires t != 0
    ensures var m := if t < 0 then -t else t;
      var g := Split(GroupedNat(m), " ");
      && TotalText(Some(t)) == (if t < 0 then "-" else "") + Join(g, " ") + " ₽"
      && g == DigitGroups(m)
      && 1 <= |g[0]| <= 3
      && (forall k :: 1 <= k < |g| ==> |g[k]| == 3)
      && (forall k :: 0 <= k < |g| ==> AllDigits(g[k]))
  {
    var m := if t < 0 then -t else t;
    GroupedNatGroups(m);
    GroupedNatSplit(m);
  }

  /** The body of the order layout, after its title line. */
  function OrderBody(n: Notification, date: string): string
  {
    "👤 Данные клиента:\n"
    + "• Имя: " + n.name.GetOr(Dash) + "\n"
    + "• Телефон: " + n.phone.GetOr(Dash) + "\n"
    + "• Email: " + n.email.GetOr(Dash) + "\n"
    + "• Адрес доставки: " + n.address.GetOr("Не указан") + "\n\n"
    + "📋 Заказанные товары:\n\n" + ItemsText(n) + "\n"
    + "💰 Общая сумма: " + TotalText(n.total) + "\n\n"
    + "📝 Комментарии: " + n.comments.GetOr("Комментариев нет") + "\n\n"
    + "⏰ Время заказа: "
  }

  /** The body of the consultation layout, after its title line. */
  function ConsultationBody(n: Notification): string
  {
    "ID: " + n.id.GetOr(Dash) + "\n"
    + "Имя: " + n.name.GetOr(Dash) + "\n"
    + "Телефон: " + n.phone.GetOr(Dash) + "\n"
    + "Email: " + n.email.GetOr(Dash) + "\n"
    + "Описание: " + Description(n) + "\n"
    + "Прочитано: " + (if n.isRead then "Да" else "Нет") + "\n"
    + "Дата создания: "
  }

  /** `format_notification`: the title and body of the layout the
      description selects, then the rendered creation date. */
  function Format(n: Notification, parse: string -> Option<string>): string
  {
    var date := DateText(n.createdAt, parse);
    if IsOrder(n) then OrderTitle + (OrderBody(n, date) + date)
    else ConsultationTitle + (ConsultationBody(n) + date)
  }

  /** The order layout is used exactly when the description holds the order
      marker, the consultation layout otherwise, and both end with the
      rendered creation date. */
  lemma FormatLayout(n: Notification, parse: string -> Option<string>)
    ensures IsOrder(n) ==> OrderTitle <= Format(n, parse)
    ensures !IsOrder(n) ==> ConsultationTitle <= Format(n, parse)
    ensures |Format(n, parse)| >= |DateText(n.createdAt, parse)|
    ensures Format(n, parse)[|Format(n, parse)| - |DateText(n.createdAt, parse)|..] == DateText(n.createdAt, parse)
  {
    var date := DateText(n.createdAt, parse);
    var body := if IsOrder(n) then OrderBody(n, date) else ConsultationBody(n);
    var title := if IsOrder(n) then OrderTitle else ConsultationTitle;
    assert Format(n, parse) == title + (body + date);
    TitleAndDate(title, body, date);
  }

  lemma TitleAndDate(title: string, body: string, date: string)
    ensures title <= title + (body + date)
    ensures (title + (body + date))[|title + (body + date)| - |date|..] == date
  {
    var r := title + (body + date);
    assert r[..|title|] == title;
    assert r[|r| - |date|..] == date;
  }

  /** The two layouts start differently, so the rendered text tells which
      layout was chosen. */
  lemma LayoutsDiffer(n: Notification, m: Notification, parse: string -> Option<string>)
    requires IsOrder(n) && !IsOrder(m)
    ensures Format(n, parse) != Format(m, parse)
  {
    var a, b := Format(n, parse), Format(m, parse);
    FormatLayout(n, parse);
    FormatLayout(m, parse);
    assert a[0] != b[0] by {
      assert a[0] == OrderTitle[0];
      assert b[0] == ConsultationTitle[0];
    }
  }

  /** The messages for `ns`, in order, addressed to `chat`. */
  function Messages(chat: Option<string>, ns: seq<Notification>, parse: string -> Option<string>): (r: seq<Send>)
    ensures |r| == |ns|
    ensures forall j :: 0 <= j < |ns| ==> r[j] == Send(chat, Format(ns[j], parse))
  {
    seq(|ns|, j requires 0 <= j < |ns| => Send(chat, Format(ns[j], parse)))
  }

  /** Sending one more record appends its message. */
  lemma MessagesAppend(chat: Option<string>, ns: seq<Notification>, n: Notification, parse: string -> Option<string>)
    ensures Messages(chat, ns + [n], parse) == Messages(chat, ns, parse) + [Send(chat, Format(n, parse))]
  {
    var a, b := Messages(chat, ns + [n], parse), Messages(chat, ns, parse) + [Send(chat, Format(n, parse))];
    assert |a| == |b|;
    forall j | 0 <= j < |a|
      ensures a[j] == b[j]
    {
      if j < |ns| {
        assert (ns + [n])[j] == ns[j];
      }
    }
  }

  // ---------------------------------------------------------------------
  // The seen set of poll_notifications

  function KeyOf(n: Notification): Key
  {
    if n.id.Some? then IdKey(n.id.value) else ReprKey(n.repr)
  }

  function KeysOf(ns: seq<Notification>): (r: seq<Key>)
    ensures |r| == |ns| && forall j :: 0 <= j < |ns| ==> r[j] == KeyOf(ns[j])
  {
    seq(|ns|, j requires 0 <= j < |ns| => KeyOf(ns[j]))
  }

  /** One step of the de-duplication loop on key `k`, from seen set `s` to
      `t`: a known key changes nothing; a new key is added, and when that
      takes the set above 1000 entries it shrinks to some 500 of them. */
  predicate Admit(s: set<Key>, k: Key, t: set<Key>)
  {
    if k in s then t == s
    else if |s + {k}| <= Capacity then t == s + {k}
    else t <= s + {k} && |t| == Retained
  }

  /** `trace[i]` is the seen set before key `ks[i]` is examined. */
  predicate AdmitTrace(ks: seq<Key>, trace: seq<set<Key>>)
  {
    |trace| == |ks| + 1
    && forall i :: 0 <= i < |ks| ==> Admit(trace[i], ks[i], trace[i + 1])
  }

  /** Step `r` of a trace is a compaction. */
  predicate Compacts(ks: seq<Key>, trace: seq<set<Key>>, r: nat)
    requires r < |ks| < |trace|
  {
    ks[r] !in trace[r] && |trace[r] + {ks[r]}| > Capacity
  }

  /** The records of `ns` selected for sending: those whose key was not in
      the seen set when they were examined, in fetch order. */
  function Batch(ns: seq<Notification>, trace: seq<set<Key>>): seq<Notification>
    requires |trace| > |ns|
  {
    if ns == [] then []
    else
      var i := |ns| - 1;
      Batch(ns[..i], trace) + (if KeyOf(ns[i]) in trace[i] then [] else [ns[i]])
  }

  /** The batch of a prefix reads only the first entries of the trace. */
  lemma {:induction false} BatchIgnoresLater(ns: seq<Notification>, trace: seq<set<Key>>, more: seq<set<Key>>)
    requires |trace| > |ns|
    ensures Batch(ns, trace + more) == Batch(ns, trace)
    decreases |ns|
  {
    if ns != [] {
      BatchIgnoresLater(ns[..|ns| - 1], trace, more);
    }
  }

  /** Extending the trace by one set extends the batch of the prefix by the
      next record, when its key was not yet seen. */
  lemma BatchStep(ns: seq<Notification>, i: nat, trace: seq<set<Key>>, t: set<Key>)
    requires i < |ns| && |trace| == i + 1
    ensures Batch(ns[..i + 1], trace + [t])
            == Batch(ns[..i], trace) + (if KeyOf(ns[i]) in trace[i] then [] else [ns[i]])
  {
    BatchIgnoresLater(ns[..i], trace, [t]);
    assert ns[..i + 1][..i] == ns[..i];
  }

  /** A trace whose first `i` steps are admissions stays one when the next
      step is. */
  lemma AdmitPrefixStep(ks: seq<Key>, i: nat, trace: seq<set<Key>>, t: set<Key>)
    requires i < |ks| && |trace| == i + 1
    requires forall r :: 0 <= r < i ==> Admit(trace[r], ks[r], trace[r + 1])
    requires Admit(trace[i], ks[i], t)
    ensures forall r :: 0 <= r < i + 1 ==> Admit((trace + [t])[r], ks[r], (trace + [t])[r + 1])
  {
    forall r | 0 <= r < i + 1
      ensures Admit((trace + [t])[r], ks[r], (trace + [t])[r + 1])
    {
      if r < i {
        assert (trace + [t])[r] == trace[r] && (trace + [t])[r + 1] == trace[r + 1];
      } else {
        assert (trace + [t])[r] == trace[i] && (trace + [t])[r + 1] == t;
      }
    }
  }

  /** A step never takes a set within the bound above it, and a compaction
      leaves exactly 500 entries. */
  lemma AdmitBound(s: set<Key>, k: Key, t: set<Key>)
    requires |s| <= Capacity && Admit(s, k, t)
    ensures |t| <= Capacity
    ensures k !in s && |s| == Capacity ==> |t| == Retained
  {
  }

  /** Without a compaction in steps `a` to `b - 1`, a key present at step
      `a` is still present at step `b`. */
  lemma {:induction false} StaysSeen(ks: seq<Key>, trace: seq<set<Key>>, k: Key, a: nat, b: nat)
    requires AdmitTrace(ks, trace) && a <= b <= |ks|
    requires k in trace[a]
    requires forall r :: a <= r < b ==> !Compacts(ks, trace, r)
    ensures k in trace[b]
    decreases b - a
  {
    if a < b {
      assert Admit(trace[a], ks[a], trace[a + 1]);
      assert !Compacts(ks, trace, a);
      StaysSeen(ks, trace, k, a + 1, b);
    }
  }

  /** At-most-once delivery: if the record at step `q` is selected although
      an earlier step `p` with the same key was selected too, then a
      compaction happened at some step from `p` to `q - 1`. */
  lemma DeliveredTwiceNeedsCompaction(ks: seq<Key>, trace: seq<set<Key>>, p: nat, q: nat)
    requires AdmitTrace(ks, trace) && p < q < |ks|
    requires ks[p] == ks[q] && ks[p] !in trace[p] && ks[q] !in trace[q]
    ensures exists r :: p <= r < q && Compacts(ks, trace, r)
  {
    if forall r :: p <= r < q ==> !Compacts(ks, trace, r) {
      assert Admit(trace[p], ks[p], trace[p + 1]);
      assert !Compacts(ks, trace, p);
      StaysSeen(ks, trace, ks[p], p + 1, q);
    }
  }

  /** A record whose key is in the seen set at the start, with no compaction
      up to step `j`, is not selected at step `j`: once marked, a record
      (including one whose send failed) is never delivered again while it is
      retained. */
  lemma NotResent(ks: seq<Key>, trace: seq<set<Key>>, j: nat)
    requires AdmitTrace(ks, trace) && j < |ks|
    requires ks[j] in trace[0]
    requires forall r :: 0 <= r < j ==> !Compacts(ks, trace, r)
    ensures ks[j] in trace[j]
  {
    StaysSeen(ks, trace, ks[j], 0, j);
  }

  /** A selected record is marked seen in the step that selects it, before
      any message is sent, unless that very step compacts. */
  lemma MarkedWhenSelected(ks: seq<Key>, trace: seq<set<Key>>, i: nat)
    requires AdmitTrace(ks, trace) && i < |ks|
    requires ks[i] !in trace[i] && !Compacts(ks, trace, i)
    ensures ks[i] in trace[i + 1]
  {
    assert Admit(trace[i], ks[i], trace[i + 1]);
  }

  /** Two consecutive traces form one trace, so the lemmas above apply to
      any run of ticks. */
  lemma AdmitTraceAppend(ks1: seq<Key>, t1: seq<set<Key>>, ks2: seq<Key>, t2: seq<set<Key>>)
    requires AdmitTrace(ks1, t1) && AdmitTrace(ks2, t2) && t1[|ks1|] == t2[0]
    ensures AdmitTrace(ks1 + ks2, t1 + t2[1..])
  {
    var ks, t := ks1 + ks2, t1 + t2[1..];
    forall i | 0 <= i < |ks|
      ensures Admit(t[i], ks[i], t[i + 1])
    {
      if i < |ks1| {
        assert Admit(t1[i], ks1[i], t1[i + 1]);
      } else {
        var j := i - |ks1|;
        assert Admit(t2[j], ks2[j], t2[j + 1]);
      }
    }
  }

  /** A subset of any size up to that of the set. */
  lemma SubsetOfSize(s: set<Key>, n: nat) returns (t: set<Key>)
    requires n <= |s|
    ensures t <= s && |t| == n
    decreases |s|
  {
    if n == |s| {
      t := s;
    } else {
      var x :| x in s;
      t := SubsetOfSize(s - {x}, n);
    }
  }

  /** How many of `size` messages go out when the send at position
      `failAt` raises. */
  function SentCount(failAt: Option<nat>, size: nat): (c: nat)
    ensures c <= size
    ensures failAt.None? ==> c == size
    ensures failAt.Some? ==> c == if failAt.value < size then failAt.value else size
  {
    match failAt
    case None => size
    case Some(f) => if f < size then f else size
  }

  /** The bot's global state: the registered chat and the ids already
      delivered. */
  class Relay {
    var chatId: Option<string>
    var seen: set<Key>

    ghost predicate Valid()
      reads this
    {
      |seen| <= Capacity
    }

    /** At start-up no chat is registered and nothing has been seen. */
    constructor ()
      ensures Valid() && chatId == None && seen == {}
    {
      chatId := None;
      seen := {};
    }

    /** `/start`: registers the chat it was sent from and answers it. */
    method Start(chat: string) returns (reply: Send)
      requires Valid()
      modifies this
      ensures Valid()
      ensures chatId == Some(chat) && seen == old(seen)
      ensures reply == Send(Some(chat), StartReply)
    {
      chatId := Some(chat);
      reply := Send(chatId, StartReply);
    }

    /** `manual_check`: every fetched record is sent to the registered chat,
        or, when the fetch gives nothing, "Нет новых уведомлений." is
        answered in the chat that asked. It neither reads nor writes the
        seen set. */
    method ManualCheck(asker: string, resp: Response, parse: string -> Option<string>) returns (sends: seq<Send>)
      ensures Fetch(resp) == [] ==> sends == [Send(Some(asker), NothingNew)]
      ensures Fetch(resp) != [] ==> sends == Messages(chatId, Fetch(resp), parse)
    {
      var notifications := Fetch(resp);
      if notifications != [] {
        sends := SendAll(chatId, notifications, |notifications|, parse);
        assert notifications[..|notifications|] == notifications;
      } else {
        sends := [Send(Some(asker), NothingNew)];
      }
    }

    /** One record's key in the de-duplication loop: a key not seen before
        is added, and the set is cut down to 500 of its entries when that
        takes it past 1000. */
    method Note(key: Key) returns (isNew: bool)
      requires Valid()
      modifies this`seen
      ensures Valid()
      ensures isNew <==> key !in old(seen)
      ensures Admit(old(seen), key, seen)
    {
      isNew := key !in seen;
      if isNew {
        seen := seen + {key};
        if |seen| > Capacity {
          ghost var w := SubsetOfSize(seen, Retained);
          var kept :| kept <= seen && |kept| == Retained;
          seen := kept;
        }
      }
    }

    /** The de-duplication loop of `poll_notifications`: every record whose
        key is not in the seen set is selected and its key added at once,
        and when the set grows past 1000 it is cut down to some 500 of its
        entries. The ghost `trace` is the seen set before each record. */
    method Mark(notifications: seq<Notification>) returns (selected: seq<Notification>, ghost trace: seq<set<Key>>)
      requires Valid()
      modifies this`seen
      ensures Valid()
      ensures AdmitTrace(KeysOf(notifications), trace)
      ensures trace[0] == old(seen) && trace[|notifications|] == seen
      ensures selected == Batch(notifications, trace)
    {
      var ks := KeysOf(notifications);
      selected := [];
      trace := [seen];
      var i := 0;
      while i < |notifications|
        invariant 0 <= i <= |notifications|
        invariant |seen| <= Capacity
        invariant |trace| == i + 1 && trace[0] == old(seen) && trace[i] == seen
        invariant forall r :: 0 <= r < i ==> Admit(trace[r], ks[r], trace[r + 1])
        invariant selected == Batch(notifications[..i], trace)
      {
        var isNew := Note(KeyOf(notifications[i]));
        if isNew {
          selected := selected + [notifications[i]];
        }
        BatchStep(notifications, i, trace, seen);
        AdmitPrefixStep(ks, i, trace, seen);
        trace := trace + [seen];
        i := i + 1;
      }
      assert notifications[..i] == notifications;
    }

    /** One iteration of `poll_notifications`. Without a registered chat
        nothing happens. Otherwise the fetched records are marked (see
        `Mark`) and the selected ones are sent in fetch order; when the send
        at position `failAt` raises, it and the rest of the batch are
        dropped, already marked as seen. */
    method Tick(resp: Response, failAt: Option<nat>, parse: string -> Option<string>)
      returns (sends: seq<Send>, ghost trace: seq<set<Key>>)
      requires Valid()
      modifies this
      ensures Valid()
      ensures chatId == old(chatId)
      ensures old(chatId).None? ==> seen == old(seen) && sends == []
      ensures old(chatId).Some? ==>
                AdmitTrace(KeysOf(Fetch(resp)), trace)
                && trace[0] == old(seen) && trace[|Fetch(resp)|] == seen
                && sends == Messages(chatId, Batch(Fetch(resp), trace)[..SentCount(failAt, |Batch(Fetch(resp), trace)|)], parse)
    {
      sends := [];
      trace := [seen];
      if chatId.None? {
        return;
      }
      var selected;
      selected, trace := Mark(Fetch(resp));
      sends := SendAll(chatId, selected, SentCount(failAt, |selected|), parse);
    }
  }

  /** One more record of a batch sent appends its message. */
  lemma MessagesPrefixStep(chat: Option<string>, batch: seq<Notification>, j: nat, parse: string -> Option<string>)
    requires j < |batch|
    ensures Messages(chat, batch[..j + 1], parse) == Messages(chat, batch[..j], parse) + [Send(chat, Format(batch[j], parse))]
  {
    assert batch[..j + 1] == batch[..j] + [batch[j]];
    MessagesAppend(chat, batch[..j], batch[j], parse);
  }

  /** The sending loop: the first `count` records of `batch`, in order. */
  method SendAll(chat: Option<string>, batch: seq<Notification>, count: nat, parse: string -> Option<string>)
    returns (sends: seq<Send>)
    requires count <= |batch|
    ensures sends == Messages(chat, batch[..count], parse)
  {
    sends := [];
    var j := 0;
    while j < count
      invariant 0 <= j <= count
      invariant sends == Messages(chat, batch[..j], parse)
    {
      var message := Send(chat, Format(batch[j], parse));
      MessagesPrefixStep(chat, batch, j, parse);
      sends := sends + [message];
      j := j + 1;
    }
  }
}

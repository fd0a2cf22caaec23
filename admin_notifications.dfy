/** The admin notifications dialog: the expanded/collapsed state of each
    card, the unread badge, and `OrderNotificationContent`, which reads an
    order back out of the marker text the shop stores in a notification's
    description. The regular expressions of that component are written out
    as hand-rolled matchers with their leftmost, greedy semantics. */
module AdminNotifications {
  import opened Wrappers
  import opened Text
  import opened Seqs
  import TelegramBot

  const OrderMarker := "###### НОВЫЙ ЗАКАЗ ######"
  const SectionRule := "======"
  const ItemsHeading := "ЗАКАЗАННЫЕ ТОВАРЫ"
  const ContactHeading := "КОНТАКТНАЯ ИНФОРМАЦИЯ"
  const TotalHeading := "ИТОГОВАЯ ИНФОРМАЦИЯ"
  const CommentsHeading := "КОММЕНТАРИИ К ЗАКАЗУ"
  const NoComments := "Комментариев нет"
  const ItemOpen := "[Товар "
  const ShopPath := "/shop/"

  // ---------------------------------------------------------------------
  // Cards and badge

  /** A notification as the dialog reads it. */
  datatype Card = Card(id: int, description: Option<string>, isRead: bool)

  /** `isOrderNotification(description || '')`. */
  predicate IsOrderCard(c: Card)
  {
    Contains(c.description.GetOr(""), OrderMarker)
  }

  /** The dialog and the relay bot classify a notification the same way:
      the bot's default description "—" and the dialog's default "" both
      lack the marker. */
  lemma OrderClassificationAgrees(n: TelegramBot.Notification, c: Card)
    requires c.description == n.description
    ensures IsOrderCard(c) <==> TelegramBot.IsOrder(n)
  {
    if n.description.None? {
      TelegramBot.NoDescriptionIsConsultation(n);
      ContainsIff("", OrderMarker);
    }
  }

  predicate Unread(c: Card)
  {
    !c.isRead
  }

  /** `notifications.filter(n => !n.isRead).length`. */
  function UnreadCount(cards: seq<Card>): nat
  {
    |Filter(cards, Unread)|
  }

  /** `notifications?.some(n => !n.isRead)`: whether the badge is rendered. */
  predicate BadgeShown(cards: seq<Card>)
  {
    exists k :: 0 <= k < |cards| && Unread(cards[k])
  }

  /** The badge appears exactly when the number it shows is positive. */
  lemma BadgeIffUnread(cards: seq<Card>)
    ensures BadgeShown(cards) <==> UnreadCount(cards) > 0
  {
    var r := Filter(cards, Unread);
    if BadgeShown(cards) {
      var k :| 0 <= k < |cards| && Unread(cards[k]);
      assert cards[k] in r;
    }
    if |r| > 0 {
      assert Unread(r[0]);
      assert r[0] in cards;
      var k :| 0 <= k < |cards| && cards[k] == r[0];
      assert Unread(cards[k]);
    }
  }

  /** `expandedNotifications[id] || false`. */
  function IsExpanded(m: map<int, bool>, id: int): bool
  {
    id in m && m[id]
  }

  /** The state after `toggleExpand(id)`. */
  function Toggled(m: map<int, bool>, id: int): (r: map<int, bool>)
    ensures IsExpanded(r, id) == !IsExpanded(m, id)
    ensures forall k :: k in m && k != id ==> k in r && r[k] == m[k]
    ensures forall k :: k in r ==> k in m || k == id
  {
    m[id := !IsExpanded(m, id)]
  }

  /** Toggling twice restores whether every card is expanded. */
  lemma ToggleTwice(m: map<int, bool>, id: int, k: int)
    ensures IsExpanded(Toggled(Toggled(m, id), id), k) == IsExpanded(m, k)
  {
  }

  /** The page state this module models: which cards are expanded. */
  class NotificationsPage {
    var expanded: map<int, bool>

    constructor ()
      ensures expanded == map[]
    {
      expanded := map[];
    }

    /** `toggleExpand(id)`: flips the entry for `id` (a missing entry reads
        as collapsed) and keeps every other entry. */
    method ToggleExpand(id: int)
      modifies this
      ensures expanded == Toggled(old(expanded), id)
    {
      expanded := expanded[id := !(id in expanded && expanded[id])];
    }
  }

  // ---------------------------------------------------------------------
  // Matchers

  /** The end of the run of characters of class `cls` that starts at `k`. */
  function RunEnd(s: string, k: nat, cls: char -> bool): (e: nat)
    requires k <= |s|
    ensures k <= e <= |s|
    ensures forall j :: k <= j < e ==> cls(s[j])
    ensures e == |s| || !cls(s[e])
    decreases |s| - k
  {
    if k < |s| && cls(s[k]) then RunEnd(s, k + 1, cls) else k
  }

  /** A run end depends only on the text from its start on. */
  lemma {:induction false} RunEndShift(pre: string, s: string, k: nat, cls: char -> bool)
    requires k <= |s|
    ensures RunEnd(pre + s, |pre| + k, cls) == |pre| + RunEnd(s, k, cls)
    decreases |s| - k
  {
    if k < |s| && cls(s[k]) {
      assert (pre + s)[|pre| + k] == s[k];
      RunEndShift(pre, s, k + 1, cls);
    } else if k < |s| {
      assert (pre + s)[|pre| + k] == s[k];
    }
  }

  predicate NotNewline(c: char) { c != '\n' }
  predicate NotBracket(c: char) { c != '[' }

  /** `tag` occurs at `i` and is followed by at least one character of
      class `cls`: where `tag(cls+)` can match. */
  predicate CaptureAt(s: string, tag: string, cls: char -> bool, i: nat)
  {
    OccursAt(s, tag, i) && i + |tag| < |s| && cls(s[i + |tag|])
  }

  /** The leftmost position at or after `from` where `tag(cls+)` matches. */
  function FirstCapture(s: string, tag: string, cls: char -> bool, from: nat): (r: Option<nat>)
    requires from <= |s|
    ensures r.Some? ==> from <= r.value && CaptureAt(s, tag, cls, r.value)
    ensures r.Some? ==> forall j :: from <= j < r.value ==> !CaptureAt(s, tag, cls, j)
    ensures r.None? ==> forall j :: from <= j <= |s| ==> !CaptureAt(s, tag, cls, j)
    decreases |s| - from
  {
    if CaptureAt(s, tag, cls, from) then Some(from)
    else if from == |s| then None
    else FirstCapture(s, tag, cls, from + 1)
  }

  /** `s.match(/tag(cls+)/)?.[1]`: the group of the leftmost match, which
      is the longest run of `cls` after the tag. */
  function Capture(s: string, tag: string, cls: char -> bool): (r: Option<string>)
    ensures r.Some? <==> FirstCapture(s, tag, cls, 0).Some?
    ensures r.Some? <==> exists j :: 0 <= j <= |s| && CaptureAt(s, tag, cls, j)
    ensures r.Some? ==> |r.value| > 0 && forall k :: 0 <= k < |r.value| ==> cls(r.value[k])
    ensures r.Some? ==>
              var i := FirstCapture(s, tag, cls, 0).value + |tag|;
              i + |r.value| <= |s| && s[i..i + |r.value|] == r.value
              && (i + |r.value| == |s| || !cls(s[i + |r.value|]))
  {
    match FirstCapture(s, tag, cls, 0)
    case None => None
    case Some(i) => Some(s[i + |tag|..RunEnd(s, i + |tag|, cls)])
  }

  /** A text in which the tag does not occur has no match. */
  lemma NoTagNoCapture(t: string, tag: string, cls: char -> bool)
    requires !Contains(t, tag)
    ensures Capture(t, tag, cls) == None
  {
    ContainsIff(t, tag);
  }

  /** Reading back a labelled value: when the tag first occurs right
      after `pre`, and the value is a non-empty run of `cls` not continued
      by `post`, the capture is exactly the value. */
  lemma CaptureRoundTrip(pre: string, tag: string, v: string, post: string, cls: char -> bool)
    requires |tag| > 0 && IndexOf(pre + tag, tag) == Some(|pre|)
    requires |v| > 0 && forall k :: 0 <= k < |v| ==> cls(v[k])
    requires post == [] || !cls(post[0])
    ensures Capture(pre + tag + v + post, tag, cls) == Some(v)
  {
    var head, rest := pre + tag, v + post;
    var s := head + rest;
    assert pre + tag + v + post == s;
    assert rest[0] == v[0];
    FirstCaptureAfter(pre, tag, rest, cls);
    RunEndShift(head, rest, 0, cls);
    RunEndUpTo(v, post, cls);
    assert s[|head|..|head| + |v|] == v;
  }

  /** When the tag first occurs right after `pre` and is followed by a
      character of the class, the leftmost match is there. */
  lemma FirstCaptureAfter(pre: string, tag: string, rest: string, cls: char -> bool)
    requires |tag| > 0 && IndexOf(pre + tag, tag) == Some(|pre|)
    requires |rest| > 0 && cls(rest[0])
    ensures FirstCapture((pre + tag) + rest, tag, cls, 0) == Some(|pre|)
  {
    var head := pre + tag;
    var s := head + rest;
    assert s[|pre|..|pre| + |tag|] == tag;
    assert s[|head|] == rest[0];
    assert CaptureAt(s, tag, cls, |pre|);
    forall j | 0 <= j < |pre|
      ensures !OccursAt(s, tag, j)
    {
      assert !OccursAt(head, tag, j);
      assert s[j..j + |tag|] == head[j..j + |tag|];
    }
  }

  /** A run over `v` followed by `post` stops at the end of `v`. */
  lemma {:induction false} RunEndUpTo(v: string, post: string, cls: char -> bool)
    requires forall k :: 0 <= k < |v| ==> cls(v[k])
    requires post == [] || !cls(post[0])
    ensures RunEnd(v + post, 0, cls) == |v|
  {
    RunEndFrom(v, post, 0, cls);
  }

  lemma {:induction false} RunEndFrom(v: string, post: string, k: nat, cls: char -> bool)
    requires k <= |v|
    requires forall j :: 0 <= j < |v| ==> cls(v[j])
    requires post == [] || !cls(post[0])
    ensures RunEnd(v + post, k, cls) == |v|
    decreases |v| - k
  {
    if k < |v| {
      assert (v + post)[k] == v[k];
      RunEndFrom(v, post, k + 1, cls);
    } else if post != [] {
      assert (v + post)[k] == post[0];
    }
  }

  // ---------------------------------------------------------------------
  // Item blocks: /\[Товар \d+\]([^[]+)/g

  /** The end of the item number that starts after `[Товар ` at `i`. */
  function NumberEnd(s: string, i: nat): nat
    requires i + |ItemOpen| <= |s|
  {
    RunEnd(s, i + |ItemOpen|, IsDigit)
  }

  /** An item block starts at `i`: `[Товар `, at least one digit, `]`, and
      at least one character other than `[`. */
  predicate ItemAt(s: string, i: nat)
  {
    OccursAt(s, ItemOpen, i)
    && NumberEnd(s, i) > i + |ItemOpen|
    && NumberEnd(s, i) + 1 < |s|
    && s[NumberEnd(s, i)] == ']'
    && s[NumberEnd(s, i) + 1] != '['
  }

  /** A text fit to be the body of a block: non-empty, no `[`. */
  predicate BlockBody(body: string)
  {
    |body| > 0 && forall k :: 0 <= k < |body| ==> body[k] != '['
  }

  /** The captured texts of `matchAll` from `from` on: at each position an
      item block is tried; a match contributes the longest run without `[`
      after the `]`, and scanning resumes after it. */
  function ItemBodies(s: string, from: nat): (r: seq<string>)
    requires from <= |s|
    ensures forall k :: 0 <= k < |r| ==> BlockBody(r[k])
    decreases |s| - from
  {
    if from == |s| then []
    else if ItemAt(s, from) then
      var b := NumberEnd(s, from) + 1;
      var e := RunEnd(s, b, NotBracket);
      [s[b..e]] + ItemBodies(s, e)
    else ItemBodies(s, from + 1)
  }

  /** A text without `[Товар ` has no item blocks. */
  lemma {:induction false} NoOpenNoItems(s: string, from: nat)
    requires from <= |s| && !Contains(s, ItemOpen)
    ensures ItemBodies(s, from) == []
    decreases |s| - from
  {
    ContainsIff(s, ItemOpen);
    if from < |s| {
      assert !ItemAt(s, from);
      NoOpenNoItems(s, from + 1);
    }
  }

  /** The rendering of one item block: `[Товар n]` and its text. */
  function ItemBlock(n: nat, body: string): string
  {
    ItemOpen + NatToString(n) + "]" + body
  }

  /** Item blocks one after the other. */
  function ItemBlocks(items: seq<(nat, string)>): string
  {
    if items == [] then "" else ItemBlock(items[0].0, items[0].1) + ItemBlocks(items[1..])
  }

  /** Whether a block starts, and where its number ends, depend only on
      the text from that position on. */
  lemma ItemAtShift(pre: string, s: string, k: nat)
    requires k < |s|
    ensures ItemAt(pre + s, |pre| + k) == ItemAt(s, k)
    ensures ItemAt(s, k) ==> NumberEnd(pre + s, |pre| + k) == |pre| + NumberEnd(s, k)
  {
    var t := pre + s;
    assert OccursAt(t, ItemOpen, |pre| + k) == OccursAt(s, ItemOpen, k) by {
      if k + |ItemOpen| <= |s| {
        assert t[|pre| + k..|pre| + k + |ItemOpen|] == s[k..k + |ItemOpen|];
      }
    }
    if OccursAt(s, ItemOpen, k) {
      RunEndShift(pre, s, k + |ItemOpen|, IsDigit);
      var d := NumberEnd(s, k);
      if d + 1 < |s| {
        assert t[|pre| + d] == s[d];
        assert t[|pre| + d + 1] == s[d + 1];
      }
    }
  }

  /** Scanning a text placed after a prefix gives what scanning the text alone gives. */
  lemma {:induction false} ItemBodiesShift(pre: string, s: string, k: nat)
    requires k <= |s|
    ensures ItemBodies(pre + s, |pre| + k) == ItemBodies(s, k)
    decreases |s| - k
  {
    var t := pre + s;
    if k < |s| {
      ItemAtShift(pre, s, k);
      if ItemAt(s, k) {
        var d := NumberEnd(s, k);
        RunEndShift(pre, s, d + 1, NotBracket);
        var e := RunEnd(s, d + 1, NotBracket);
        assert t[|pre| + d + 1..|pre| + e] == s[d + 1..e];
        ItemBodiesShift(pre, s, e);
      } else {
        ItemBodiesShift(pre, s, k + 1);
      }
    }
  }

  /** The header of a rendered block matches, and its number ends just
      before the `]`. */
  lemma BlockHeader(n: nat, rest: string)
    requires |rest| > 0 && rest[0] != '['
    ensures ItemAt(ItemOpen + NatToString(n) + "]" + rest, 0)
    ensures NumberEnd(ItemOpen + NatToString(n) + "]" + rest, 0) == |ItemOpen| + |NatToString(n)|
  {
    var s := ItemOpen + NatToString(n) + "]" + rest;
    assert OccursAt(s, ItemOpen, 0) by { assert s[..|ItemOpen|] == ItemOpen; }
    var digits := NatToString(n) + ("]" + rest);
    assert s == ItemOpen + digits;
    RunEndShift(ItemOpen, digits, 0, IsDigit);
    RunEndUpTo(NatToString(n), "]" + rest, IsDigit);
    var b := |ItemOpen| + |NatToString(n)| + 1;
    assert s[b - 1] == ']';
    assert s[b] == rest[0];
  }

  /** A rendered block followed by text that starts a new block (or by
      nothing) is read as its own text, then the rest. */
  lemma ItemBodiesCons(n: nat, body: string, rest: string)
    requires BlockBody(body)
    requires rest == [] || rest[0] == '['
    ensures ItemBodies(ItemBlock(n, body) + rest, 0) == [body] + ItemBodies(rest, 0)
  {
    var head := ItemOpen + NatToString(n) + "]";
    var s := head + (body + rest);
    assert ItemBlock(n, body) + rest == s;
    BlockHeader(n, body + rest);
    var e := |head| + |body|;
    assert RunEnd(s, |head|, NotBracket) == e by {
      RunEndShift(head, body + rest, 0, NotBracket);
      RunEndUpTo(body, rest, NotBracket);
    }
    assert s[|head|..e] == body;
    assert ItemBodies(s, 0) == [body] + ItemBodies(s, e);
    assert ItemBodies(s, e) == ItemBodies(rest, 0) by {
      assert s == (head + body) + rest;
      ItemBodiesShift(head + body, rest, 0);
    }
  }

  /** Parsing a rendered block list gives back the block texts, in order:
      each block's text runs up to the `[` that opens the next block. */
  lemma {:induction false} ItemBodiesOfBlocks(items: seq<(nat, string)>)
    requires forall k :: 0 <= k < |items| ==> BlockBody(items[k].1)
    ensures ItemBodies(ItemBlocks(items), 0) == seq(|items|, k requires 0 <= k < |items| => items[k].1)
    decreases |items|
  {
    if items != [] {
      var rest := ItemBlocks(items[1..]);
      if rest != [] {
        assert rest[0] == ItemOpen[0];
      }
      ItemBodiesCons(items[0].0, items[0].1, rest);
      ItemBodiesOfBlocks(items[1..]);
    }
  }

  // ---------------------------------------------------------------------
  // OrderNotificationContent

  /** One rendered item. `url` is the trimmed link text, or null;
      `productId` is the digit run after `/shop/` in a non-empty url. */
  datatype ItemView = ItemView(
    name: string, quantity: string, price: string, sum: string,
    url: Option<string>, productId: Option<string>)

  /** What `renderOrderItems` shows: nothing without an items section, the
      "Список товаров пуст" note for a section without item blocks, or the
      items. */
  datatype ItemsView = NoSection | EmptyList | Items(items: seq<ItemView>)

  /** What `OrderNotificationContent` shows: the "Информация о заказе
      отсутствует" note for an empty description, or the parsed order. */
  datatype OrderView =
    | NoInformation
    | OrderView(items: ItemsView, customerName: Option<string>, address: Option<string>,
                total: Option<string>, comments: Option<string>)

  /** `url.match(/\/shop\/(\d+)/)?.[1]` for a truthy url. */
  function ProductId(url: Option<string>): (r: Option<string>)
    ensures r.Some? <==> url.Some? && url.value != ""
                         && exists j :: 0 <= j <= |url.value| && CaptureAt(url.value, ShopPath, IsDigit, j)
    ensures r.Some? ==> |r.value| > 0 && AllDigits(r.value)
  {
    if url.None? || url.value == "" then None else Capture(url.value, ShopPath, IsDigit)
  }

  /** The product id of a shop link is the number it ends with. */
  lemma ProductIdOfLink(host: string, n: nat)
    requires IndexOf(host + ShopPath, ShopPath) == Some(|host|)
    ensures ProductId(Some(host + ShopPath + NatToString(n))) == Some(NatToString(n))
  {
    CaptureRoundTrip(host, ShopPath, NatToString(n), "", IsDigit);
    assert host + ShopPath + NatToString(n) + "" == host + ShopPath + NatToString(n);
  }

  const NameLabel := "▶ Наименование: "
  const QuantityLabel := "▶ Количество: "
  const PriceLabel := "▶ Цена за шт.: "
  const SumLabel := "▶ Сумма: "
  const LinkLabel := "▶ Ссылка на товар: "
  const UnknownItem := "Неизвестный товар"

  /** One item from the text of its block, trimmed; the product id is read
      from the link. */
  function ItemViewOf(body: string): (r: ItemView)
    ensures r.productId == ProductId(r.url)
    ensures r.productId.Some? ==> r.url.Some?
  {
    var t := Strip(body);
    var url := match Capture(t, LinkLabel, NotNewline)
               case None => None
               case Some(u) => Some(Strip(u));
    ItemView(
      Capture(t, NameLabel, NotNewline).GetOr(UnknownItem),
      Capture(t, QuantityLabel, NotNewline).GetOr(""),
      Capture(t, PriceLabel, NotNewline).GetOr(""),
      Capture(t, SumLabel, NotNewline).GetOr(""),
      url,
      ProductId(url))
  }

  /** Each field of an item is the rest of the line after its label in the
      trimmed block, the name defaulting to "Неизвестный товар" and the
      quantity, price and sum to empty; the link is that line trimmed, and
      null without it. */
  lemma ItemViewFields(body: string)
    ensures var t, r := Strip(body), ItemViewOf(body);
      (Capture(t, NameLabel, NotNewline).None? ==> r.name == UnknownItem)
      && (Capture(t, NameLabel, NotNewline).Some? ==> r.name == Capture(t, NameLabel, NotNewline).value)
      && (Capture(t, QuantityLabel, NotNewline).None? ==> r.quantity == "")
      && (Capture(t, QuantityLabel, NotNewline).Some? ==> r.quantity == Capture(t, QuantityLabel, NotNewline).value)
      && (Capture(t, PriceLabel, NotNewline).None? ==> r.price == "")
      && (Capture(t, PriceLabel, NotNewline).Some? ==> r.price == Capture(t, PriceLabel, NotNewline).value)
      && (Capture(t, SumLabel, NotNewline).None? ==> r.sum == "")
      && (Capture(t, SumLabel, NotNewline).Some? ==> r.sum == Capture(t, SumLabel, NotNewline).value)
      && (Capture(t, LinkLabel, NotNewline).None? ==> r.url.None?)
      && (Capture(t, LinkLabel, NotNewline).Some? ==> r.url == Some(Strip(Capture(t, LinkLabel, NotNewline).value)))
  {
  }

  /** A tag that starts with `▶ ` has no match in a text without `▶ `. */
  lemma NoArrowNoCapture(t: string, tag: string, cls: char -> bool)
    requires !Contains(t, "▶ ") && |tag| >= 2 && tag[..2] == "▶ "
    ensures Capture(t, tag, cls) == None
  {
    ContainsIff(t, "▶ ");
    forall j | 0 <= j <= |t|
      ensures !OccursAt(t, tag, j)
    {
      assert !OccursAt(t, "▶ ", j);
      if j + |tag| <= |t| {
        assert t[j..j + |tag|][..2] == t[j..j + 2];
      }
    }
  }

  /** Each field whose label line is missing from the trimmed block shows
      its default, whatever the other lines hold. */
  lemma ItemDefaults(body: string)
    ensures var t, r := Strip(body), ItemViewOf(body);
      (!Contains(t, NameLabel) ==> r.name == UnknownItem)
      && (!Contains(t, QuantityLabel) ==> r.quantity == "")
      && (!Contains(t, PriceLabel) ==> r.price == "")
      && (!Contains(t, SumLabel) ==> r.sum == "")
      && (!Contains(t, LinkLabel) ==> r.url.None? && r.productId.None?)
  {
    var t := Strip(body);
    ItemViewFields(body);
    if !Contains(t, NameLabel) { NoTagNoCapture(t, NameLabel, NotNewline); }
    if !Contains(t, QuantityLabel) { NoTagNoCapture(t, QuantityLabel, NotNewline); }
    if !Contains(t, PriceLabel) { NoTagNoCapture(t, PriceLabel, NotNewline); }
    if !Contains(t, SumLabel) { NoTagNoCapture(t, SumLabel, NotNewline); }
    if !Contains(t, LinkLabel) { NoTagNoCapture(t, LinkLabel, NotNewline); }
  }

  /** A block without any `▶ ` line shows "Неизвестный товар", empty
      values and no link. */
  lemma ItemWithoutLines(body: string)
    requires !Contains(Strip(body), "▶ ")
    ensures ItemViewOf(body) == ItemView(UnknownItem, "", "", "", None, None)
  {
    var t := Strip(body);
    ItemViewFields(body);
    assert NameLabel[..2] == "▶ ";
    NoArrowNoCapture(t, NameLabel, NotNewline);
    assert QuantityLabel[..2] == "▶ ";
    NoArrowNoCapture(t, QuantityLabel, NotNewline);
    assert PriceLabel[..2] == "▶ ";
    NoArrowNoCapture(t, PriceLabel, NotNewline);
    assert SumLabel[..2] == "▶ ";
    NoArrowNoCapture(t, SumLabel, NotNewline);
    assert LinkLabel[..2] == "▶ ";
    NoArrowNoCapture(t, LinkLabel, NotNewline);
  }

  /** `renderOrderItems` over the sections of a description. */
  function ItemsViewOf(sections: seq<string>): (r: ItemsView)
    ensures FirstWith(sections, ItemsHeading).None? <==> r.NoSection?
    ensures r.EmptyList? ==> ItemBodies(sections[FirstWith(sections, ItemsHeading).value], 0) == []
    ensures r.Items? ==> |r.items| == |ItemBodies(sections[FirstWith(sections, ItemsHeading).value], 0)| > 0
    ensures r.Items? ==> forall k :: 0 <= k < |r.items| ==>
              r.items[k] == ItemViewOf(ItemBodies(sections[FirstWith(sections, ItemsHeading).value], 0)[k])
  {
    match FirstWith(sections, ItemsHeading)
    case None => NoSection
    case Some(j) =>
      var bodies := ItemBodies(sections[j], 0);
      if |bodies| == 0 then EmptyList
      else Items(seq(|bodies|, k requires 0 <= k < |bodies| => ItemViewOf(bodies[k])))
  }

  /** The scan moves past text without `[` without finding a block. */
  lemma {:induction false} ItemBodiesSkip(s: string, from: nat, stop: nat)
    requires from <= stop <= |s|
    requires forall j :: from <= j < stop ==> s[j] != '['
    ensures ItemBodies(s, from) == ItemBodies(s, stop)
    decreases stop - from
  {
    if from < stop {
      assert ItemOpen[0] == '[';
      assert !ItemAt(s, from);
      ItemBodiesSkip(s, from + 1, stop);
    }
  }

  /** A heading without `[` before rendered blocks does not change what
      is read from them. */
  lemma HeadedBlockBodies(head: string, items: seq<(nat, string)>)
    requires forall j :: 0 <= j < |head| ==> head[j] != '['
    requires forall k :: 0 <= k < |items| ==> BlockBody(items[k].1)
    ensures ItemBodies(head + ItemBlocks(items), 0) == seq(|items|, k requires 0 <= k < |items| => items[k].1)
  {
    var sec := head + ItemBlocks(items);
    forall j | 0 <= j < |head|
      ensures sec[j] != '['
    {
      assert sec[j] == head[j];
    }
    ItemBodiesSkip(sec, 0, |head|);
    ItemBodiesShift(head, ItemBlocks(items), 0);
    ItemBodiesOfBlocks(items);
  }

  /** The items section the shop writes, a heading without `[` followed by
      the rendered blocks, is shown as one entry per block, in order, each
      read from that block's text. */
  lemma ItemsViewOfRendered(sections: seq<string>, head: string, items: seq<(nat, string)>)
    requires FirstWith(sections, ItemsHeading).Some?
    requires sections[FirstWith(sections, ItemsHeading).value] == head + ItemBlocks(items)
    requires forall j :: 0 <= j < |head| ==> head[j] != '['
    requires |items| > 0 && forall k :: 0 <= k < |items| ==> BlockBody(items[k].1)
    ensures ItemsViewOf(sections).Items? && |ItemsViewOf(sections).items| == |items|
    ensures forall k :: 0 <= k < |items| ==> ItemsViewOf(sections).items[k] == ItemViewOf(items[k].1)
  {
    HeadedBlockBodies(head, items);
  }

  /** The rest of the line after `tag` in the section holding `heading`,
      or null when there is no such section or line. */
  function LabelledValue(sections: seq<string>, heading: string, tag: string): (r: Option<string>)
    ensures FirstWith(sections, heading).None? ==> r.None?
    ensures FirstWith(sections, heading).Some? ==>
              var sec := sections[FirstWith(sections, heading).value];
              r.Some? <==> exists j :: 0 <= j <= |sec| && CaptureAt(sec, tag, NotNewline, j)
    ensures r.Some? ==> |r.value| > 0 && forall k :: 0 <= k < |r.value| ==> r.value[k] != '\n'
  {
    match FirstWith(sections, heading)
    case None => None
    case Some(j) => Capture(sections[j], tag, NotNewline)
  }

  /** A labelled line of the selected section is read back as the rest of
      that line, for the first occurrence of the label. */
  lemma LabelledValueOfLine(sections: seq<string>, heading: string, pre: string, tag: string, v: string,
                            post: string)
    requires FirstWith(sections, heading).Some? && sections[FirstWith(sections, heading).value] == pre + tag + v + post
    requires |tag| > 0 && IndexOf(pre + tag, tag) == Some(|pre|)
    requires |v| > 0 && forall k :: 0 <= k < |v| ==> v[k] != '\n'
    requires post == [] || post[0] == '\n'
    ensures LabelledValue(sections, heading, tag) == Some(v)
  {
    CaptureRoundTrip(pre, tag, v, post, NotNewline);
  }

  /** A selected section without the label gives null. */
  lemma LabelledValueMissing(sections: seq<string>, heading: string, tag: string)
    requires FirstWith(sections, heading).Some? && !Contains(sections[FirstWith(sections, heading).value], tag)
    ensures LabelledValue(sections, heading, tag).None?
  {
    NoTagNoCapture(sections[FirstWith(sections, heading).value], tag, NotNewline);
  }

  /** `getCommentsFromSection`: the section with its first heading removed,
      trimmed, and null when it says there are no comments. */
  function CommentsOf(sections: seq<string>): (r: Option<string>)
    ensures FirstWith(sections, CommentsHeading).None? ==> r.None?
    ensures r.Some? ==> r.value != NoComments
  {
    match FirstWith(sections, CommentsHeading)
    case None => None
    case Some(j) =>
      var c := Strip(ReplaceFirst(sections[j], CommentsHeading, ""));
      if c != NoComments then Some(c) else None
  }

  /** `OrderNotificationContent`. */
  function ParseOrder(description: string): (r: OrderView)
    ensures description == "" <==> r.NoInformation?
  {
    if description == "" then NoInformation
    else
      var sections := Split(description, SectionRule);
      OrderView(
        ItemsViewOf(sections),
        LabelledValue(sections, ContactHeading, "• Имя заказчика: "),
        LabelledValue(sections, ContactHeading, "• Адрес доставки: "),
        LabelledValue(sections, TotalHeading, "• Общая сумма заказа: "),
        CommentsOf(sections))
  }

  /** A written comments section is read back as the comment text, for a
      comment that is already trimmed and is not the "no comments" text. */
  lemma CommentsRoundTrip(comment: string)
    requires Strip(comment) == comment && comment != NoComments
    ensures CommentsOf([CommentsHeading + comment]) == Some(comment)
  {
    var s := CommentsHeading + comment;
    ReplaceFirstPrefix(CommentsHeading, comment);
    assert FirstWith([s], CommentsHeading) == Some(0);
  }
}

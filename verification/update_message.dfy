/** The update announcement (`buildUpdateMessage`): a container of text
    displays, separators and an optional link button, in a fixed order. */
module UpdateMessage {
  import opened Options
  import opened Text

  /** A list item; the url is optional. */
  datatype Item = Item(text: string, url: Option<string>)

  datatype LinkButton = LinkButton(text: string, url: string)

  /** The container's components, in the order they were added. Every
      separator uses the large spacing. */
  datatype Component = TextDisplay(content: string) | Separator | ActionRow(buttons: seq<LinkButton>)

  /** The message's inputs. The bullet emoji id comes from the
      environment (`EMOJI_BULLET_PINK`, else ""). */
  datatype Update = Update(
    headingText: string,
    subheadingText: Option<string>,
    list: seq<Item>,
    button: Option<LinkButton>,
    bulletEmojiId: string,
    headingEmojiId: Option<string>)

  /** How an emoji looks inside a template string: the cached emoji's text
      when the id is known to the client, "undefined" otherwise. */
  function EmojiText(emojis: map<string, string>, id: string): (r: string)
    ensures id in emojis ==> r == emojis[id]
    ensures id !in emojis ==> r == "undefined"
  {
    if id in emojis then emojis[id] else "undefined"
  }

  predicate Truthy(s: Option<string>) {
    s.Some? && s.value != ""
  }

  /** The heading line: "### ", the heading emoji (only when an id is
      given), a space, the heading text. */
  function Heading(u: Update, emojis: map<string, string>): (r: string)
    ensures StartsWith(r, "### ")
    ensures EndsWith(r, " " + u.headingText)
    ensures !Truthy(u.headingEmojiId) ==> r == "###  " + u.headingText
    ensures Truthy(u.headingEmojiId) ==> r == "### " + EmojiText(emojis, u.headingEmojiId.value) + " " + u.headingText
  {
    var e := if Truthy(u.headingEmojiId) then EmojiText(emojis, u.headingEmojiId.value) else "";
    var r := "### " + e + " " + u.headingText;
    assert r == "### " + (e + " " + u.headingText);
    assert r == ("### " + e) + (" " + u.headingText);
    r
  }

  /** One list entry: a line break, the bullet emoji, then the text, as a
      markdown link when the item has a url. */
  function Bullet(item: Item, emoji: string): (r: string)
    ensures StartsWith(r, "\n" + emoji + " ")
    ensures Truthy(item.url) ==> r == "\n" + emoji + " " + "[" + item.text + "](" + item.url.value + ")"
    ensures !Truthy(item.url) ==> r == "\n" + emoji + " " + item.text
  {
    var lead := "\n" + emoji + " ";
    var r := if Truthy(item.url) then lead + ("[" + item.text + "](" + item.url.value + ")") else lead + item.text;
    assert Truthy(item.url) ==> r == lead + "[" + item.text + "](" + item.url.value + ")";
    r
  }

  function Bullets(list: seq<Item>, emoji: string): (r: seq<string>)
    ensures |r| == |list|
    ensures forall i :: 0 <= i < |list| ==> r[i] == Bullet(list[i], emoji)
  {
    seq(|list|, i requires 0 <= i < |list| => Bullet(list[i], emoji))
  }

  /** The bullet list text: the entries joined by single spaces. */
  function ListString(list: seq<Item>, emoji: string): string {
    Join(Bullets(list, emoji), " ")
  }

  /** `buildUpdateMessage(u)`. */
  function Build(u: Update, emojis: map<string, string>): (r: seq<Component>)
    // heading first; the optional subheading with its separator next
    ensures |r| == 2 + (if Truthy(u.subheadingText) then 2 else 0) + (if u.button.Some? then 2 else 0)
    ensures r[0] == TextDisplay(Heading(u, emojis))
    ensures Truthy(u.subheadingText) ==> r[1] == TextDisplay(u.subheadingText.value) && r[2] == Separator
    // the bullet text is always there, even for an empty list
    ensures var k := if Truthy(u.subheadingText) then 3 else 1;
            r[k] == TextDisplay(ListString(u.list, EmojiText(emojis, u.bulletEmojiId)))
    // the button comes last, after a separator, alone in its row
    ensures u.button.Some? ==> r[|r| - 2] == Separator && r[|r| - 1] == ActionRow([u.button.value])
    ensures u.button.None? ==> r[|r| - 1].TextDisplay?
  {
    var head := [TextDisplay(Heading(u, emojis))];
    var sub := if Truthy(u.subheadingText) then [TextDisplay(u.subheadingText.value), Separator] else [];
    var bullets := [TextDisplay(ListString(u.list, EmojiText(emojis, u.bulletEmojiId)))];
    var foot := if u.button.Some? then [Separator, ActionRow([u.button.value])] else [];
    head + sub + bullets + foot
  }

  function CountChar(s: string, c: char): nat {
    if |s| == 0 then 0 else (if s[0] == c then 1 else 0) + CountChar(s[1..], c)
  }

  lemma {:induction false} CountCharAppend(a: string, b: string, c: char)
    ensures CountChar(a + b, c) == CountChar(a, c) + CountChar(b, c)
    decreases |a|
  {
    if |a| > 0 {
      assert (a + b)[1..] == a[1..] + b;
      CountCharAppend(a[1..], b, c);
    } else {
      assert a + b == b;
    }
  }

  predicate NoBreak(s: string) {
    '\n' !in s
  }

  lemma {:induction false} NoBreakCount(s: string)
    requires NoBreak(s)
    ensures CountChar(s, '\n') == 0
    decreases |s|
  {
    if |s| > 0 {
      assert s[0] in s;
      assert forall k :: 0 <= k < |s[1..]| ==> s[1..][k] == s[k + 1];
      NoBreakCount(s[1..]);
    }
  }

  /** Each item puts exactly one line break into its entry. */
  lemma BulletBreaks(item: Item, emoji: string)
    requires NoBreak(emoji) && NoBreak(item.text) && (item.url.Some? ==> NoBreak(item.url.value))
    ensures CountChar(Bullet(item, emoji), '\n') == 1
  {
    var rest := if Truthy(item.url) then "[" + item.text + "](" + item.url.value + ")" else item.text;
    assert Bullet(item, emoji) == "\n" + (emoji + " " + rest);
    assert NoBreak(emoji + " " + rest) by {
      forall k | 0 <= k < |emoji + " " + rest| ensures (emoji + " " + rest)[k] != '\n' {
        if k < |emoji| {
          assert (emoji + " " + rest)[k] == emoji[k];
        } else if k > |emoji| {
          var j := k - |emoji| - 1;
          assert (emoji + " " + rest)[k] == rest[j];
          if Truthy(item.url) {
            assert rest == "[" + item.text + "](" + item.url.value + ")";
            RestNoBreak(item.text, item.url.value, j);
          } else {
            assert rest[j] in item.text;
          }
        }
      }
    }
    NoBreakCount(emoji + " " + rest);
    CountCharAppend("\n", emoji + " " + rest, '\n');
  }

  lemma RestNoBreak(text: string, url: string, j: int)
    requires NoBreak(text) && NoBreak(url)
    requires 0 <= j < |"[" + text + "](" + url + ")"|
    ensures ("[" + text + "](" + url + ")")[j] != '\n'
  {
    var s := "[" + text + "](" + url + ")";
    if 1 <= j < 1 + |text| {
      assert s[j] == text[j - 1];
      assert text[j - 1] in text;
    } else if 3 + |text| <= j < 3 + |text| + |url| {
      assert s[j] == url[j - 3 - |text|];
      assert url[j - 3 - |text|] in url;
    }
  }

  /** The bullet text has one line per item: as many line breaks as
      entries, when no text, url or emoji holds a line break. */
  lemma {:induction false} OneLinePerItem(list: seq<Item>, emoji: string)
    requires NoBreak(emoji)
    requires forall i :: 0 <= i < |list| ==> NoBreak(list[i].text) && (list[i].url.Some? ==> NoBreak(list[i].url.value))
    ensures CountChar(ListString(list, emoji), '\n') == |list|
    decreases |list|
  {
    if |list| == 1 {
      BulletBreaks(list[0], emoji);
    } else if |list| > 1 {
      var bs := Bullets(list, emoji);
      assert Bullets(list[1..], emoji) == bs[1..];
      assert ListString(list, emoji) == bs[0] + (" " + ListString(list[1..], emoji));
      OneLinePerItem(list[1..], emoji);
      BulletBreaks(list[0], emoji);
      CountCharAppend(bs[0], " " + ListString(list[1..], emoji), '\n');
      CountCharAppend(" ", ListString(list[1..], emoji), '\n');
    }
  }
}

/**
 * The message entry box: a bounded history of sent texts (newest first),
 * a working copy of it that Up/Down navigate and edits overwrite, and the
 * split of a sent text into a message or a slash command. The widget's
 * text is the field `text`; whether a key press moved the text cursor is a
 * parameter; the `message` and `command` signals are recorded in `sent`.
 */
module EntryBoxes {
  import opened Wrappers

  const InputHistorySize: nat := 127

  /** What `send` emits. */
  datatype Sent = Message(text: string) | Command(name: string, args: string)

  // --- history -----------------------------------------------------------------

  /** The history after sending `x`: when full, the oldest entry is dropped before `x` goes in front. */
  function Pushed(history: seq<string>, x: string): (r: seq<string>)
    requires |history| <= InputHistorySize
    ensures |r| == if |history| == InputHistorySize then InputHistorySize else |history| + 1
    ensures r == ([x] + history)[..|r|]
  {
    var kept := if |history| == InputHistorySize then history[..InputHistorySize - 1] else history;
    assert [x] + kept == ([x] + history)[..1 + |kept|];
    [x] + kept
  }

  function Min(a: nat, b: nat): nat {
    if a < b then a else b
  }

  function Reverse(s: seq<string>): (r: seq<string>)
    ensures |r| == |s|
  {
    if s == [] then [] else Reverse(s[1..]) + [s[0]]
  }

  function PushedAll(history: seq<string>, texts: seq<string>): (r: seq<string>)
    requires |history| <= InputHistorySize
    ensures |r| <= InputHistorySize
  {
    if texts == [] then history else Pushed(PushedAll(history, texts[..|texts| - 1]), texts[|texts| - 1])
  }

  /** After any run of sends the history is the newest 127 texts, newest first. */
  lemma {:induction false} PushedAllKeepsNewest(history: seq<string>, texts: seq<string>)
    requires |history| <= InputHistorySize
    ensures var all := Reverse(texts) + history;
      PushedAll(history, texts) == all[..Min(|all|, InputHistorySize)]
    decreases |texts|
  {
    if texts != [] {
      var n := |texts| - 1;
      PushedAllKeepsNewest(history, texts[..n]);
      var before := Reverse(texts[..n]) + history;
      var all := Reverse(texts) + history;
      ReverseLast(texts);
      assert all == [texts[n]] + before;
      var p := PushedAll(history, texts[..n]);
      assert p == before[..Min(|before|, InputHistorySize)];
      var r := Pushed(p, texts[n]);
      assert r == ([texts[n]] + p)[..|r|];
      assert |r| == Min(|all|, InputHistorySize);
      forall k | 0 <= k < |r|
        ensures r[k] == all[k]
      {
        if k > 0 {
          assert r[k] == p[k - 1];
        }
      }
    }
  }

  lemma {:induction false} ReverseLast(s: seq<string>)
    requires s != []
    ensures Reverse(s) == [s[|s| - 1]] + Reverse(s[..|s| - 1])
    decreases |s|
  {
    var n := |s| - 1;
    if n > 0 {
      ReverseLast(s[1..]);
      assert s[1..][..n - 1] == s[..n][1..];
      assert s[1..][n - 1] == s[n];
      assert Reverse(s[..n]) == Reverse(s[..n][1..]) + [s[0]];
    } else {
      assert s[1..] == [] && s[..n] == [];
    }
  }

  // --- slash commands ----------------------------------------------------------------

  /** The position of the first space, if any (`indexOf(' ')`). */
  function FirstSpace(s: string): (r: Option<nat>)
    ensures r.Some? ==> r.value < |s| && s[r.value] == ' ' && ' ' !in s[..r.value]
    ensures r.None? ==> ' ' !in s
  {
    if s == [] then None
    else if s[0] == ' ' then Some(0)
    else
      match FirstSpace(s[1..])
      case None => None
      case Some(k) =>
        assert s[..k + 1] == [s[0]] + s[1..][..k];
        Some(k + 1)
  }

  /**
   * What `send` emits for `text`: a text starting with '/' names a command
   * up to the first space, and the arguments follow that space; a command
   * with an empty name sends its arguments as a message; any other text is
   * a message as it stands.
   */
  function ParseEntry(text: string): (r: Sent)
    ensures (text == [] || text[0] != '/') ==> r == Message(text)
    ensures r.Command? ==> r.name != [] && ' ' !in r.name
    ensures r.Command? && ' ' in text ==> text == "/" + r.name + " " + r.args
    ensures r.Command? && ' ' !in text ==> text == "/" + r.name && r.args == []
  {
    if text == [] || text[0] != '/' then Message(text)
    else
      var commandEnd := match FirstSpace(text) case Some(k) => k case None => |text|;
      var name := if commandEnd >= 1 then text[1..commandEnd] else [];
      var args := if commandEnd + 1 <= |text| then text[commandEnd + 1..] else [];
      if name == [] then Message(args) else Command(name, args)
  }

  /** A command typed as "/name args" is read back as that command. */
  lemma CommandRoundTrip(name: string, args: string)
    requires name != [] && ' ' !in name
    ensures ParseEntry("/" + name + " " + args) == Command(name, args)
  {
    var text := "/" + name + " " + args;
    assert text[1..][..|name|] == name;
    assert text[1 + |name|] == ' ';
    FirstSpaceAt(text, 1 + |name|);
    assert text[1..1 + |name|] == name;
    assert text[2 + |name|..] == args;
  }

  lemma FirstSpaceAt(s: string, k: nat)
    requires k < |s| && s[k] == ' ' && ' ' !in s[..k]
    ensures FirstSpace(s) == Some(k)
  {
    var r := FirstSpace(s);
    assert r.Some? by {
      assert s[k] in s;
    }
  }

  /** Text without a leading slash is sent unchanged as a message. */
  lemma MessageRoundTrip(text: string)
    requires text == [] || text[0] != '/'
    ensures ParseEntry(text) == Message(text)
  {
  }

  // --- the widget ------------------------------------------------------------------

  class EntryBox {
    /** Sent texts, newest first. */
    var trueHistory: seq<string>
    /** The texts Up/Down move through: the entry being written, then the history. */
    var workingHistory: seq<string>
    var historyIndex: nat
    var text: string
    var sent: seq<Sent>

    ghost predicate Valid()
      reads this
    {
      |trueHistory| <= InputHistorySize && historyIndex < |workingHistory|
    }

    constructor ()
      ensures Valid()
      ensures trueHistory == [] && workingHistory == [""] && historyIndex == 0 && text == "" && sent == []
    {
      trueHistory := [];
      workingHistory := [""];
      historyIndex := 0;
      text := "";
      sent := [];
    }

    /** `text_changed`: the entry shown overwrites its place in the working history, and nothing else. */
    method TextChanged()
      requires Valid()
      modifies this`workingHistory
      ensures Valid()
      ensures |workingHistory| == |old(workingHistory)|
      ensures workingHistory[historyIndex] == text
      ensures forall k :: 0 <= k < |workingHistory| && k != historyIndex ==> workingHistory[k] == old(workingHistory)[k]
    {
      workingHistory := workingHistory[historyIndex := text];
    }

    /** Typing: the text changes, then `textChanged` fires. */
    method Edit(newText: string)
      requires Valid()
      modifies this`text, this`workingHistory
      ensures Valid() && text == newText
      ensures workingHistory == old(workingHistory)[historyIndex := newText]
    {
      text := newText;
      TextChanged();
    }

    /** Up: an older entry is shown, if the cursor stayed put and there is one. */
    method Up(cursorMoved: bool)
      requires Valid()
      modifies this`historyIndex, this`text
      ensures Valid()
      ensures historyIndex == if !cursorMoved && old(historyIndex) + 1 < |workingHistory| then old(historyIndex) + 1 else old(historyIndex)
      ensures historyIndex != old(historyIndex) ==> text == workingHistory[historyIndex]
      ensures historyIndex == old(historyIndex) ==> text == old(text)
    {
      if !cursorMoved && historyIndex + 1 < |workingHistory| {
        historyIndex := historyIndex + 1;
        text := workingHistory[historyIndex];
      }
    }

    /** Down: a newer entry is shown, if the cursor stayed put and there is one. */
    method Down(cursorMoved: bool)
      requires Valid()
      modifies this`historyIndex, this`text
      ensures Valid()
      ensures historyIndex == if !cursorMoved && old(historyIndex) > 0 then old(historyIndex) - 1 else old(historyIndex)
      ensures historyIndex != old(historyIndex) ==> text == workingHistory[historyIndex]
      ensures historyIndex == old(historyIndex) ==> text == old(text)
    {
      if !cursorMoved && historyIndex > 0 {
        historyIndex := historyIndex - 1;
        text := workingHistory[historyIndex];
      }
    }

    /**
     * `send`: the text enters the bounded history, the working history starts
     * over as a copy of it (with its capacity of 127) and an empty entry is
     * pushed in front, dropping the oldest text when the copy is full; the
     * text is emitted as a message or command, and the box is cleared.
     */
    method Send()
      requires Valid()
      modifies this
      ensures Valid()
      ensures trueHistory == Pushed(old(trueHistory), old(text))
      ensures workingHistory == ([""] + trueHistory)[..Min(|trueHistory| + 1, InputHistorySize)] && historyIndex == 0
      ensures |workingHistory| <= InputHistorySize
      ensures sent == old(sent) + [ParseEntry(old(text))]
      ensures text == ""
    {
      if |trueHistory| == InputHistorySize {
        trueHistory := trueHistory[..|trueHistory| - 1];
      }
      trueHistory := [text] + trueHistory;
      var working := [""] + trueHistory;
      workingHistory := working[..Min(|working|, InputHistorySize)];
      historyIndex := 0;
      var s := text;
      if |s| > 0 && s[0] == '/' {
        var commandEnd := |s|;
        var space := FirstSpace(s);
        if space.Some? {
          commandEnd := space.value;
        }
        var name := if commandEnd >= 1 then s[1..commandEnd] else [];
        var args := if commandEnd + 1 <= |s| then s[commandEnd + 1..] else [];
        if name == [] {
          sent := sent + [Message(args)];
        } else {
          sent := sent + [Command(name, args)];
        }
      } else {
        sent := sent + [Message(s)];
      }
      text := "";
      TextChanged();
    }
  }
}

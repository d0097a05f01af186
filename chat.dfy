/**
 * The state of the chat overlay of src/plugin/vragechat/cef/Chat.tsx and the
 * handlers that update it: opening and closing the input, the command hint
 * while typing, pushing a message, sending the input, browsing the input
 * history with the arrow keys, tab completion and the solid-chat switch.
 *
 * The React state hooks become the fields of one object and every handler a
 * method that updates them in order. The game host (`mp`) is a flag saying
 * whether it is present plus a log of the calls made to it; the clock is the
 * `timestamp` parameter; timers, scrolling and rendering are not modelled.
 */
module Chat {
  import opened Wrappers
  import opened Strings
  import opened ChatCommands

  /** `ChatSettings`. */
  datatype Settings = Settings(
    timeStamp: bool, removeInputColors: bool, characterCount: bool, scrollbar: bool,
    maxLength: int, colorBackground: bool, solidchat: bool, autohide: int)

  /** The settings the overlay starts with. */
  const DefaultSettings: Settings := Settings(true, true, true, true, 255, false, false, 0)

  /** `ChatMessage`. */
  datatype Message = Message(text: string, timestamp: string, colorClass: string)

  /**
   * A call into the game host: `mp.invoke('focus', s)`, `mp.invoke('setTypingInChatState', s)`,
   * the `player::chatOpen` event with `{status: s}`, `mp.invoke('command', text)` or
   * `mp.invoke('chatMessage', text)`.
   */
  datatype HostCall = Focus(status: bool) | TypingState(status: bool) | ChatOpen(status: bool) | Command(text: string) | ChatMessage(text: string)

  /** One line of the command hint: the suggested command and its description. */
  datatype HintLine = HintLine(word: string, description: Description)

  /** The most messages the list keeps. */
  const MaxMessages: nat := 100

  /** The most inputs the history keeps. */
  const MaxHistory: nat := 100

  /** The flag `pushMessage` puts before an error line on a coloured background, as the source file's characters. */
  const ErrorFlag: string := "\U{F0}\U{178}\U{161}\U{A9} "

  /**
   * The text and class of a pushed line: a leading `0` is cut off and gives
   * `color-purple`, a leading `1` is cut off and gives `color-error` (with
   * the flag in front on a coloured background); without a coloured
   * background the class also gets ` hide3`.
   */
  function Styled(text: string, colorBackground: bool): (r: Message)
    ensures |text| > 0 && text[0] == '0' ==> text == "0" + r.text
    ensures |text| > 0 && text[0] == '1' ==> r.text == (if colorBackground then ErrorFlag else "") + text[1..]
    ensures !(|text| > 0 && (text[0] == '0' || text[0] == '1')) ==> r.text == text
    ensures r.colorClass == (if |text| > 0 && text[0] == '0' then "color-purple"
                             else if |text| > 0 && text[0] == '1' then "color-error" else "")
                            + (if colorBackground then "" else " hide3")
  {
    var kind := if |text| > 0 && text[0] == '0' then "color-purple"
                else if |text| > 0 && text[0] == '1' then "color-error" else "";
    var body := if kind == "" then text
                else if kind == "color-error" && colorBackground then ErrorFlag + text[1..]
                else text[1..];
    Message(body, "", kind + (if colorBackground then "" else " hide3"))
  }

  /** `[...prev, m]`, then `slice(-100)` when it grew past 100: the newest 100 messages, `m` last. */
  function AppendNewest<T>(list: seq<T>, m: T, cap: nat): (r: seq<T>)
    requires cap > 0
    ensures |r| == if |list| + 1 <= cap then |list| + 1 else cap
    ensures |r| > 0 && r[|r| - 1] == m
    ensures r == (list + [m])[|list| + 1 - |r|..]
  {
    var grown := list + [m];
    if |grown| > cap then grown[|grown| - cap..] else grown
  }

  /** `[m, ...prev.slice(0, 99)]`: the newest input first, then at most 99 earlier ones, newest first. */
  function RecordInput(history: seq<string>, m: string): (r: seq<string>)
    ensures |r| == if |history| < MaxHistory then |history| + 1 else MaxHistory
    ensures r[0] == m && r[1..] == history[..|r| - 1]
  {
    [m] + history[..if |history| < MaxHistory - 1 then |history| else MaxHistory - 1]
  }

  /** The hint for a list of suggestions: each with the description of its command. */
  function HintLines(words: seq<string>, commands: map<string, Desc>, lang: string): (h: seq<HintLine>)
    ensures |h| == |words|
    ensures forall k :: 0 <= k < |words| ==>
      h[k].word == words[k]
      && h[k].description == GetCommandDescription(if words[k] in commands then Some(commands[words[k]]) else None, lang)
  {
    seq(|words|, k requires 0 <= k < |words| =>
      HintLine(words[k], GetCommandDescription(if words[k] in commands then Some(commands[words[k]]) else None, lang)))
  }

  /** Some line of the hint has a description whose lookup throws. */
  predicate HintThrows(h: seq<HintLine>)
  {
    exists k :: 0 <= k < |h| && h[k].description == TypeError
  }

  /** Building the hint throws exactly when some suggested command has a `null` description. */
  lemma HintThrowsIff(words: seq<string>, commands: map<string, Desc>, lang: string)
    ensures HintThrows(HintLines(words, commands, lang))
            <==> exists k :: 0 <= k < |words| && words[k] in commands && commands[words[k]] == Null
  {
    var h := HintLines(words, commands, lang);
    if HintThrows(h) {
      var k :| 0 <= k < |h| && h[k].description == TypeError;
      assert words[k] in commands && commands[words[k]] == Null;
    }
    if exists k :: 0 <= k < |words| && words[k] in commands && commands[words[k]] == Null {
      var k :| 0 <= k < |words| && words[k] in commands && commands[words[k]] == Null;
      assert h[k].description == TypeError;
    }
  }

  /** The line `sendInput` works on: the trimmed input, with colour markup removed when that setting is on. */
  function OutgoingLine(input: string, removeInputColors: bool, stripColors: string -> string): string
  {
    var m := Trim(input);
    if removeInputColors then stripColors(m) else m
  }

  /** An empty line or a lone `/`: `sendInput` only closes the input. */
  predicate ClosesOnly(m: string)
  {
    |m| < 1 || (m[0] == '/' && |m| < 2)
  }

  /** What `sendInput` hands the host: a command without its `/`, or a chat line. */
  function SendCall(m: string): HostCall
    requires |m| > 0
  {
    if m[0] == '/' then Command(m[1..]) else ChatMessage(m)
  }

  class ChatState {
    var settings: Settings
    var messages: seq<Message>
    var inputText: string
    var chatInputStatus: bool
    var isHidden: bool
    var chatActive: bool
    var showScrollbar: bool
    var inputHistory: seq<string>
    var inputHistoryPosition: int
    var inputCache: string
    var commands: map<string, Desc>
    var commandNames: seq<string>
    var completeWord: string
    var lang: string
    /** The autocomplete hint; empty when `autoCompleteHtml` is `''`. */
    var hint: seq<HintLine>
    /** Whether the game host object `mp` is defined. */
    var hostPresent: bool
    /** Every call made to the game host, oldest first. */
    var hostCalls: seq<HostCall>

    /**
     * The message list and the history stay within their caps, the history
     * position is -1 (editing a new line) or an index into the history, and
     * every command name has a command.
     */
    ghost predicate Valid()
      reads this
    {
      && |messages| <= MaxMessages
      && |inputHistory| <= MaxHistory
      && -1 <= inputHistoryPosition < |inputHistory|
      && (forall n :: n in commandNames ==> n in commands)
    }

    /** The state the component mounts with. */
    constructor (host: bool)
      ensures Valid()
      ensures settings == DefaultSettings && messages == [] && inputText == ""
      ensures !chatInputStatus && !isHidden && chatActive && showScrollbar
      ensures inputHistory == [] && inputHistoryPosition == -1 && inputCache == ""
      ensures commands == map[] && commandNames == [] && completeWord == "" && lang == "es"
      ensures hint == [] && hostPresent == host && hostCalls == []
    {
      settings := DefaultSettings;
      messages := [];
      inputText := "";
      chatInputStatus := false;
      isHidden := false;
      chatActive := true;
      showScrollbar := true;
      inputHistory := [];
      inputHistoryPosition := -1;
      inputCache := "";
      commands := map[];
      commandNames := [];
      completeWord := "";
      lang := "es";
      hint := [];
      hostPresent := host;
      hostCalls := [];
    }

    /**
     * `setCommandsAndLang`, from the already parsed command table: `names`
     * are its keys in order.
     */
    method SetCommandsAndLang(table: map<string, Desc>, names: seq<string>, newLang: string)
      requires Valid()
      requires forall n :: n in names <==> n in table
      modifies this
      ensures Valid()
      ensures commands == table && commandNames == names && lang == newLang
      ensures messages == old(messages) && inputText == old(inputText) && inputHistory == old(inputHistory)
      ensures inputHistoryPosition == old(inputHistoryPosition) && settings == old(settings)
      ensures inputCache == old(inputCache) && chatInputStatus == old(chatInputStatus) && isHidden == old(isHidden)
      ensures chatActive == old(chatActive) && showScrollbar == old(showScrollbar) && completeWord == old(completeWord)
      ensures hint == old(hint) && hostPresent == old(hostPresent) && hostCalls == old(hostCalls)
    {
      commands := table;
      commandNames := names;
      lang := newLang;
    }

    /**
     * `handleChatInputStatus(status)`: nothing when the status is already
     * `status` or when opening an inactive chat; otherwise the host is told
     * (focus, typing state, `player::chatOpen`), the status is set, opening
     * shows the scrollbar when enabled, and closing clears the hint.
     */
    method HandleChatInputStatus(status: bool)
      requires Valid()
      modifies this
      ensures Valid()
      ensures (!old(chatActive) && status) || status == old(chatInputStatus) ==>
        chatInputStatus == old(chatInputStatus) && hint == old(hint) && hostCalls == old(hostCalls)
        && showScrollbar == old(showScrollbar)
      ensures !((!old(chatActive) && status) || status == old(chatInputStatus)) ==>
        && chatInputStatus == status
        && hostCalls == old(hostCalls)
             + (if hostPresent then [Focus(status), TypingState(status), ChatOpen(status)] else [])
        && hint == (if status then old(hint) else [])
        && showScrollbar == (if status && settings.scrollbar then true else old(showScrollbar))
      ensures settings == old(settings) && messages == old(messages) && inputText == old(inputText)
      ensures inputHistory == old(inputHistory) && inputHistoryPosition == old(inputHistoryPosition)
      ensures inputCache == old(inputCache) && completeWord == old(completeWord) && chatActive == old(chatActive)
      ensures commands == old(commands) && commandNames == old(commandNames) && lang == old(lang)
      ensures isHidden == old(isHidden) && hostPresent == old(hostPresent)
    {
      if (!chatActive && status) || status == chatInputStatus {
        return;
      }
      if hostPresent {
        hostCalls := hostCalls + [Focus(status), TypingState(status), ChatOpen(status)];
      }
      chatInputStatus := status;
      if status {
        if settings.scrollbar {
          showScrollbar := true;
        }
      } else {
        hint := [];
      }
    }

    /**
     * `updateCharCount(message)`: for a trimmed input `/` plus at least one
     * character, the suggestions for the lower-cased rest become the hint
     * and the first one the completion word (both stay as they were when
     * there is no suggestion); any other input clears both. When a suggested
     * command's description is `null`, reading it throws before either is
     * set: `threw` is returned and both stay as they were.
     */
    method UpdateCharCount(message: string) returns (threw: bool)
      requires Valid()
      modifies this
      ensures Valid()
      ensures var m := Trim(message);
        if StartsWith(m, "/") && |m| >= 2 then
          var similar := FindSimilarWords(ToLower(m[1..]), commandNames);
          && (threw <==> |similar| > 0 && HintThrows(HintLines(similar, commands, lang)))
          && if |similar| > 0 && !threw then hint == HintLines(similar, commands, lang) && completeWord == similar[0]
             else hint == old(hint) && completeWord == old(completeWord)
        else !threw && hint == [] && completeWord == ""
      ensures completeWord != old(completeWord) && completeWord != "" ==> completeWord in commandNames
      ensures settings == old(settings) && messages == old(messages) && inputText == old(inputText)
      ensures inputHistory == old(inputHistory) && inputHistoryPosition == old(inputHistoryPosition)
      ensures inputCache == old(inputCache) && chatInputStatus == old(chatInputStatus) && chatActive == old(chatActive)
      ensures commands == old(commands) && commandNames == old(commandNames) && lang == old(lang)
      ensures hostCalls == old(hostCalls) && hostPresent == old(hostPresent)
      ensures isHidden == old(isHidden) && showScrollbar == old(showScrollbar)
    {
      threw := false;
      var m := Trim(message);
      if StartsWith(m, "/") && |m| >= 2 {
        var similar := FindSimilarWords(ToLower(m[1..]), commandNames);
        if |similar| > 0 {
          var lines := HintLines(similar, commands, lang);
          if HintThrows(lines) {
            return true;
          }
          SuggestionsFromList(ToLower(m[1..]), commandNames);
          hint := lines;
          completeWord := similar[0];
        }
      } else {
        hint := [];
        completeWord := "";
      }
    }

    /**
     * `pushMessage(text)` (its list part): the styled line with the given
     * timestamp is appended, the list keeps the newest 100, the scrollbar is
     * shown when enabled and the chat is unhidden.
     */
    method PushMessage(text: string, timestamp: string)
      requires Valid()
      modifies this
      ensures Valid()
      ensures var s := Styled(text, old(settings).colorBackground);
        messages == AppendNewest(old(messages), Message(s.text, timestamp, s.colorClass), MaxMessages)
      ensures showScrollbar == (if settings.scrollbar then true else old(showScrollbar))
      ensures !isHidden
      ensures settings == old(settings) && inputText == old(inputText) && chatInputStatus == old(chatInputStatus)
      ensures inputHistory == old(inputHistory) && inputHistoryPosition == old(inputHistoryPosition)
      ensures inputCache == old(inputCache) && completeWord == old(completeWord) && chatActive == old(chatActive)
      ensures commands == old(commands) && commandNames == old(commandNames) && lang == old(lang)
      ensures hint == old(hint) && hostCalls == old(hostCalls) && hostPresent == old(hostPresent)
    {
      var s := Styled(text, settings.colorBackground);
      messages := AppendNewest(messages, Message(s.text, timestamp, s.colorClass), MaxMessages);
      if settings.scrollbar {
        showScrollbar := true;
      }
      isHidden := false;
    }

    /**
     * `sendInput()`: the trimmed input (with colour markup removed by
     * `stripColors` when that setting is on); empty or a lone `/` only closes
     * the input. Otherwise the line is delivered and recorded (`Deliver`),
     * and the input is closed.
     */
    method SendInput(timestamp: string, stripColors: string -> string)
      requires Valid()
      modifies this
      ensures Valid()
      ensures var m := OutgoingLine(old(inputText), old(settings).removeInputColors, stripColors);
        if ClosesOnly(m) then
          inputHistory == old(inputHistory) && inputText == old(inputText)
          && inputHistoryPosition == old(inputHistoryPosition) && messages == old(messages)
        else
          && inputHistory == RecordInput(old(inputHistory), m)
          && inputText == "" && inputHistoryPosition == -1
          && (old(hostPresent) ==>
                messages == old(messages) && |hostCalls| > |old(hostCalls)| && hostCalls[|old(hostCalls)|] == SendCall(m))
          && (!old(hostPresent) ==>
                var s := Styled(m, old(settings).colorBackground);
                messages == AppendNewest(old(messages), Message(s.text, timestamp, s.colorClass), MaxMessages))
      ensures var m := OutgoingLine(old(inputText), old(settings).removeInputColors, stripColors);
        var pushed := !ClosesOnly(m) && !old(hostPresent);
        && isHidden == (if pushed then false else old(isHidden))
        && showScrollbar == (if pushed && old(settings).scrollbar then true else old(showScrollbar))
      ensures !chatInputStatus
      ensures hint == (if old(chatInputStatus) then [] else old(hint))
      ensures inputCache == old(inputCache) && completeWord == old(completeWord)
      ensures |hostCalls| >= |old(hostCalls)| && hostCalls[..|old(hostCalls)|] == old(hostCalls)
      ensures settings == old(settings) && chatActive == old(chatActive) && commands == old(commands)
      ensures commandNames == old(commandNames) && lang == old(lang) && hostPresent == old(hostPresent)
    {
      var m := OutgoingLine(inputText, settings.removeInputColors, stripColors);
      if !ClosesOnly(m) {
        Deliver(m, timestamp);
      }
      // both ways end by closing the input
      ghost var history, text, position, list, calls := inputHistory, inputText, inputHistoryPosition, messages, hostCalls;
      HandleChatInputStatus(false);
      assert inputHistory == history && inputText == text && inputHistoryPosition == position && messages == list;
      assert hostCalls[..|calls|] == calls;
    }

    /**
     * The part of `sendInput()` for a line worth sending: a command (without
     * its `/`) or a chat line goes to the host, or is pushed as a message
     * without a host; the line is recorded at the front of the history, the
     * input is cleared and the history position reset.
     */
    method Deliver(m: string, timestamp: string)
      requires Valid() && !ClosesOnly(m)
      modifies this
      ensures Valid()
      ensures inputHistory == RecordInput(old(inputHistory), m)
      ensures inputText == "" && inputHistoryPosition == -1
      ensures old(hostPresent) ==> messages == old(messages) && hostCalls == old(hostCalls) + [SendCall(m)]
      ensures !old(hostPresent) ==>
        var s := Styled(m, old(settings).colorBackground);
        messages == AppendNewest(old(messages), Message(s.text, timestamp, s.colorClass), MaxMessages)
        && hostCalls == old(hostCalls)
      ensures chatInputStatus == old(chatInputStatus) && settings == old(settings) && chatActive == old(chatActive)
      ensures commands == old(commands) && commandNames == old(commandNames) && lang == old(lang)
      ensures hostPresent == old(hostPresent) && inputCache == old(inputCache) && completeWord == old(completeWord)
      ensures hint == old(hint)
      ensures isHidden == (if old(hostPresent) then old(isHidden) else false)
      ensures showScrollbar == (if !old(hostPresent) && old(settings).scrollbar then true else old(showScrollbar))
    {
      if hostPresent {
        hostCalls := hostCalls + [SendCall(m)];
      } else {
        PushMessage(m, timestamp);
      }
      inputHistory := RecordInput(inputHistory, m);
      inputText := "";
      inputHistoryPosition := -1;
    }

    /**
     * `onArrowUp`: nothing at the oldest entry (or with an empty history);
     * leaving the new line caches it; otherwise one entry older is shown.
     */
    method OnArrowUp()
      requires Valid()
      modifies this
      ensures Valid()
      ensures old(inputHistoryPosition) == |inputHistory| - 1 ==>
        inputHistoryPosition == old(inputHistoryPosition) && inputText == old(inputText) && inputCache == old(inputCache)
      ensures old(inputHistoryPosition) != |inputHistory| - 1 ==>
        && inputHistoryPosition == old(inputHistoryPosition) + 1
        && inputText == inputHistory[inputHistoryPosition]
        && inputCache == (if old(inputHistoryPosition) == -1 then old(inputText) else old(inputCache))
      ensures inputHistory == old(inputHistory) && messages == old(messages) && settings == old(settings)
      ensures completeWord == old(completeWord) && chatInputStatus == old(chatInputStatus) && hint == old(hint)
      ensures isHidden == old(isHidden) && chatActive == old(chatActive) && showScrollbar == old(showScrollbar)
      ensures commands == old(commands) && commandNames == old(commandNames) && lang == old(lang)
      ensures hostPresent == old(hostPresent) && hostCalls == old(hostCalls)
    {
      if inputHistoryPosition == |inputHistory| - 1 {
        return;
      }
      if inputHistoryPosition == -1 {
        inputCache := inputText;
      }
      inputHistoryPosition := inputHistoryPosition + 1;
      inputText := inputHistory[inputHistoryPosition];
    }

    /**
     * `onArrowDown`: nothing on the new line; from the newest entry back to
     * the new line with the cached text; otherwise one entry newer is shown.
     */
    method OnArrowDown()
      requires Valid()
      modifies this
      ensures Valid()
      ensures old(inputHistoryPosition) == -1 ==>
        inputHistoryPosition == -1 && inputText == old(inputText)
      ensures old(inputHistoryPosition) == 0 ==>
        inputHistoryPosition == -1 && inputText == old(inputCache)
      ensures old(inputHistoryPosition) > 0 ==>
        inputHistoryPosition == old(inputHistoryPosition) - 1 && inputText == inputHistory[inputHistoryPosition]
      ensures inputCache == old(inputCache)
      ensures inputHistory == old(inputHistory) && messages == old(messages) && settings == old(settings)
      ensures completeWord == old(completeWord) && chatInputStatus == old(chatInputStatus) && hint == old(hint)
      ensures isHidden == old(isHidden) && chatActive == old(chatActive) && showScrollbar == old(showScrollbar)
      ensures commands == old(commands) && commandNames == old(commandNames) && lang == old(lang)
      ensures hostPresent == old(hostPresent) && hostCalls == old(hostCalls)
    {
      if inputHistoryPosition == -1 {
        return;
      }
      if inputHistoryPosition == 0 {
        inputText := inputCache;
        inputHistoryPosition := -1;
        return;
      }
      inputHistoryPosition := inputHistoryPosition - 1;
      inputText := inputHistory[inputHistoryPosition];
    }

    /** `handleTabComplete`: with a completion word, the input becomes `/<word>` and the word is consumed. */
    method HandleTabComplete()
      requires Valid()
      modifies this
      ensures Valid()
      ensures |old(completeWord)| > 0 ==> inputText == "/" + old(completeWord) && completeWord == ""
      ensures |old(completeWord)| == 0 ==> inputText == old(inputText) && completeWord == old(completeWord)
      ensures inputHistory == old(inputHistory) && inputHistoryPosition == old(inputHistoryPosition)
      ensures messages == old(messages) && settings == old(settings) && hint == old(hint)
      ensures inputCache == old(inputCache) && chatInputStatus == old(chatInputStatus) && isHidden == old(isHidden)
      ensures chatActive == old(chatActive) && showScrollbar == old(showScrollbar)
      ensures commands == old(commands) && commandNames == old(commandNames) && lang == old(lang)
      ensures hostPresent == old(hostPresent) && hostCalls == old(hostCalls)
    {
      if |completeWord| > 0 {
        inputText := "/" + completeWord;
        completeWord := "";
      }
    }

    /** `toggleSolidChat`: flips `solidchat` and keeps every other setting. */
    method ToggleSolidChat()
      requires Valid()
      modifies this
      ensures Valid()
      ensures settings == old(settings).(solidchat := !old(settings).solidchat)
      ensures messages == old(messages) && inputText == old(inputText) && inputHistory == old(inputHistory)
      ensures inputHistoryPosition == old(inputHistoryPosition) && chatInputStatus == old(chatInputStatus)
      ensures inputCache == old(inputCache) && completeWord == old(completeWord) && hint == old(hint)
      ensures isHidden == old(isHidden) && chatActive == old(chatActive) && showScrollbar == old(showScrollbar)
      ensures commands == old(commands) && commandNames == old(commandNames) && lang == old(lang)
      ensures hostPresent == old(hostPresent) && hostCalls == old(hostCalls)
    {
      settings := settings.(solidchat := !settings.solidchat);
    }
  }
}

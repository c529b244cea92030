/**
 * The per-connection WebSocket chat session, `ChatSocket` in src/actors/actor.rs.
 *
 * The actor itself has no fields; everything it does goes through its
 * context: `ctx.text`, `ctx.binary` and `ctx.close` queue an outbound frame and
 * `ctx.stop` stops the actor. The class `Session` below is the actor together
 * with that context: the frames sent so far and whether it has stopped.
 *
 * Its behaviour is specified by pure functions: `React` (what one inbound
 * frame causes), `Step` and `Run` (the state after a sequence of inbound
 * frames). The lemmas at the end are about `Run`.
 */
module ChatSocket {
  import opened Wrappers
  import Json

  type Bytes = seq<bv8>

  newtype u16 = x: int | 0 <= x < 0x1_0000

  /** actix `CloseReason`: a close code and an optional description. */
  datatype CloseReason = CloseReason(code: u16, description: Option<string>)

  /** actix `Item`: one fragment of a message split over continuation frames. */
  datatype ContinuationItem =
    | FirstText(data: Bytes)
    | FirstBinary(data: Bytes)
    | Continue(data: Bytes)
    | Last(data: Bytes)

  /** actix `ws::Message`: the frames the connection delivers. */
  datatype Message =
    | Text(text: string)
    | Binary(data: Bytes)
    | Continuation(item: ContinuationItem)
    | Ping(data: Bytes)
    | Pong(data: Bytes)
    | Close(reason: Option<CloseReason>)
    | Nop

  /** actix `ws::ProtocolError`, kept opaque. */
  datatype ProtocolError = ProtocolError(description: string)

  /** What the stream hands to `handle`: `Result<ws::Message, ws::ProtocolError>`. */
  type Incoming = Result<Message, ProtocolError>

  /** The frames the session can send. */
  datatype Outbound =
    | TextFrame(text: string)
    | BinaryFrame(data: Bytes)
    | CloseFrame(reason: Option<CloseReason>)

  /**
   * The two library calls the actor makes, as total functions:
   * `serde_json::from_str::<Value>` (`None` for text that is not JSON) and
   * `ammonia::clean`.
   */
  datatype Libraries = Libraries(fromStr: string -> Option<Json.Value>, clean: string -> string)

  /** The text frame sent once the connection is established. */
  const Greeting: string := "Hello world!"

  // The reply fragment, in the order it is sent: the append into the chat
  // room, then the replacement composer form.

  const ChatRoomId: string := "chat_room"
  const ComposerId: string := "form-ws"
  /** htmx out-of-band swap that appends to the target. */
  const AppendSwap: string := "beforeend"
  /** htmx out-of-band swap that replaces the target by morphing it. */
  const MorphSwap: string := "morphdom"
  const Indent: string := "                            "

  const ChatRoomOpen: string :=
    "\n" + Indent + "<div id=\"" + ChatRoomId + "\" hx-swap-oob=\"" + AppendSwap + "\">"

  const ChatRoomClose: string := "<br></div>\n"

  const Composer: string :=
    "\n" + Indent + "<form id=\"" + ComposerId + "\" ws-send hx-swap-oob=\"" + MorphSwap + "\">\n"
    + Indent + "    <label>\n"
    + Indent + "        <input id=\"typed_message\" name=\"chat_message\" type=\"text\" placeholder=\"Type your message...\" autofocus autocomplete required minlength=\"5\" maxlength=\"20\" />\n"
    + Indent + "    </label>\n"
    + Indent + "    <button type=\"submit\">submit</button>\n"
    + Indent + "</form>\n\n"
    + Indent

  /** Everything of the fragment that follows the message. */
  const Trailer: string := ChatRoomClose + Composer

  /** The `format!` of the reply: the sanitized message spliced into the fixed template. */
  function RenderFragment(sanitized: string): (f: string)
    ensures |f| == |ChatRoomOpen| + |sanitized| + |Trailer|
    ensures forall i :: 0 <= i < |ChatRoomOpen| ==> f[i] == ChatRoomOpen[i]
    ensures forall i :: 0 <= i < |sanitized| ==> f[|ChatRoomOpen| + i] == sanitized[i]
    ensures forall i :: 0 <= i < |Trailer| ==> f[|ChatRoomOpen| + |sanitized| + i] == Trailer[i]
  {
    ChatRoomOpen + sanitized + Trailer
  }

  /** Reads back the message a fragment carries, if the frame has the template's shape. */
  function ParseFragment(frame: string): Option<string>
  {
    if |frame| >= |ChatRoomOpen| + |Trailer|
       && frame[..|ChatRoomOpen|] == ChatRoomOpen
       && frame[|frame| - |Trailer|..] == Trailer
    then Some(frame[|ChatRoomOpen|..|frame| - |Trailer|])
    else None
  }

  /** The rendered fragment carries the whole message, untruncated, and nothing else of the user's. */
  lemma {:induction false} RenderThenParse(sanitized: string)
    ensures ParseFragment(RenderFragment(sanitized)) == Some(sanitized)
    ensures |RenderFragment(sanitized)| == |ChatRoomOpen| + |sanitized| + |Trailer|
  {
  }

  /** Every frame the parser accepts is the rendering of what it reads back. */
  lemma {:induction false} ParseThenRender(frame: string, sanitized: string)
    requires ParseFragment(frame) == Some(sanitized)
    ensures RenderFragment(sanitized) == frame
  {
    assert frame == frame[..|ChatRoomOpen|] + frame[|ChatRoomOpen|..|frame| - |Trailer|] + frame[|frame| - |Trailer|..];
  }

  /** Distinct messages give distinct fragments. */
  lemma RenderInjective(a: string, b: string)
    requires RenderFragment(a) == RenderFragment(b)
    ensures a == b
  {
    RenderThenParse(a);
    RenderThenParse(b);
  }

  /** `parsed["chat_message"].as_str()`. */
  function ChatMessage(parsed: Json.Value): (m: Option<string>)
    ensures m.Some? <==>
              parsed.Object? && "chat_message" in parsed.members && parsed.members["chat_message"].String?
    ensures m.Some? ==> parsed.members["chat_message"] == Json.String(m.value)
  {
    Json.AsStr(Json.Index(parsed, "chat_message"))
  }

  /**
   * The reply to a Text frame: the rendered fragment around the sanitized
   * message, or nothing when the text is not JSON, not an object, or has no
   * string `chat_message`.
   */
  function TextReply(text: string, lib: Libraries): (reply: Option<string>)
    ensures reply.Some? <==> lib.fromStr(text).Some? && ChatMessage(lib.fromStr(text).value).Some?
    ensures reply.Some? ==>
              ParseFragment(reply.value) == Some(lib.clean(ChatMessage(lib.fromStr(text).value).value))
  {
    match lib.fromStr(text)
    case None => None
    case Some(parsed) =>
      match ChatMessage(parsed)
      case None => None
      case Some(message) =>
        RenderThenParse(lib.clean(message));
        Some(RenderFragment(lib.clean(message)))
  }

  /** What one inbound frame causes: the frames sent in response and whether the actor stops. */
  datatype Reaction = Reaction(frames: seq<Outbound>, stop: bool)

  /** The inbound frames `handle` does nothing for. */
  predicate Ignored(msg: Incoming, lib: Libraries)
  {
    match msg
    case Err(_) => true
    case Ok(Text(text)) => TextReply(text, lib).None?
    case Ok(Binary(_)) => false
    case Ok(Close(_)) => false
    case Ok(_) => true
  }

  /** The body of `handle`, for a session that has not stopped. */
  function React(msg: Incoming, lib: Libraries): (r: Reaction)
    ensures |r.frames| <= 1
    ensures r.stop <==> msg.Ok? && msg.value.Close?
    ensures r.frames == [] <==> Ignored(msg, lib)
  {
    match msg
    case Ok(Text(text)) =>
      (match TextReply(text, lib)
       case Some(fragment) => Reaction([TextFrame(fragment)], false)
       case None => Reaction([], false))
    case Ok(Binary(bin)) => Reaction([BinaryFrame(bin)], false)
    case Ok(Close(reason)) => Reaction([CloseFrame(reason)], true)
    case Ok(Continuation(_)) => Reaction([], false)
    case Ok(Nop) => Reaction([], false)
    case _ => Reaction([], false)
  }

  /** The observable state of a session: the frames sent so far, and whether it stopped. */
  datatype View = View(sent: seq<Outbound>, stopped: bool)

  /** Right after `started`: the greeting sent, the actor running. */
  const Opening: View := View([TextFrame(Greeting)], false)

  /** One inbound frame. Once stopped, the connection delivers nothing more to the actor. */
  function Step(v: View, msg: Incoming, lib: Libraries): View
  {
    if v.stopped then v
    else
      var r := React(msg, lib);
      View(v.sent + r.frames, r.stop)
  }

  /** The state after `started` and then `handle` for each of `received`, in order. */
  function Run(received: seq<Incoming>, lib: Libraries): View
    decreases |received|
  {
    if received == [] then Opening
    else Step(Run(received[..|received| - 1], lib), received[|received| - 1], lib)
  }

  lemma RunAppend(received: seq<Incoming>, msg: Incoming, lib: Libraries)
    ensures Run(received + [msg], lib) == Step(Run(received, lib), msg, lib)
  {
    assert (received + [msg])[..|received|] == received;
  }

  /** Frames once sent stay sent, and a stopped session stays stopped and silent. */
  lemma {:induction false} RunExtends(received: seq<Incoming>, more: seq<Incoming>, lib: Libraries)
    ensures Run(received, lib).sent <= Run(received + more, lib).sent
    ensures Run(received, lib).stopped ==> Run(received + more, lib) == Run(received, lib)
    decreases |more|
  {
    if more == [] {
      assert received + more == received;
    } else {
      var init := more[..|more| - 1];
      assert received + more == (received + init) + [more[|more| - 1]];
      RunExtends(received, init, lib);
      RunAppend(received + init, more[|more| - 1], lib);
    }
  }

  /** The first frame of every session is the greeting, whatever arrives after it. */
  lemma GreetingFirst(received: seq<Incoming>, lib: Libraries)
    ensures |Run(received, lib).sent| >= 1
    ensures Run(received, lib).sent[0] == TextFrame(Greeting)
  {
    RunExtends([], received, lib);
    assert [] + received == received;
  }

  /** A Binary frame is echoed byte for byte, unsanitized, and the session keeps running. */
  lemma BinaryEchoed(received: seq<Incoming>, bin: Bytes, lib: Libraries)
    requires !Run(received, lib).stopped
    ensures Run(received + [Ok(Binary(bin))], lib) == View(Run(received, lib).sent + [BinaryFrame(bin)], false)
  {
    RunAppend(received, Ok(Binary(bin)), lib);
  }

  /**
   * A Close frame is acknowledged once with the same reason; the session then
   * stops and nothing that arrives afterwards produces a frame.
   */
  lemma CloseThenSilence(received: seq<Incoming>, reason: Option<CloseReason>, after: seq<Incoming>, lib: Libraries)
    requires !Run(received, lib).stopped
    ensures Run(received + [Ok(Close(reason))] + after, lib)
            == View(Run(received, lib).sent + [CloseFrame(reason)], true)
  {
    RunAppend(received, Ok(Close(reason)), lib);
    RunExtends(received + [Ok(Close(reason))], after, lib);
  }

  /**
   * Continuation, Ping, Pong, Nop and protocol errors, and Text frames without
   * a string `chat_message`, change nothing: no frame, no change of state.
   */
  lemma IgnoredChangesNothing(received: seq<Incoming>, msg: Incoming, lib: Libraries)
    requires Ignored(msg, lib)
    ensures Run(received + [msg], lib) == Run(received, lib)
  {
    RunAppend(received, msg, lib);
  }

  /** The three ways a Text frame is silently dropped. */
  lemma TextDropped(text: string, lib: Libraries)
    ensures Ignored(Ok(Text(text)), lib) <==>
              || lib.fromStr(text).None?
              || !lib.fromStr(text).value.Object?
              || "chat_message" !in lib.fromStr(text).value.members
              || !lib.fromStr(text).value.members["chat_message"].String?
  {
  }

  /**
   * A Text frame whose `chat_message` is `m` is answered by exactly one Text
   * frame: the template around `clean(m)`.
   */
  lemma TextAnswered(received: seq<Incoming>, text: string, m: string, lib: Libraries)
    requires !Run(received, lib).stopped
    requires lib.fromStr(text).Some? && ChatMessage(lib.fromStr(text).value) == Some(m)
    ensures Run(received + [Ok(Text(text))], lib)
            == View(Run(received, lib).sent + [TextFrame(RenderFragment(lib.clean(m)))], false)
  {
    RunAppend(received, Ok(Text(text)), lib);
    ParseThenRender(TextReply(text, lib).value, lib.clean(m));
  }

  /** Two chat messages give two frames, in order, each carrying only its own sanitized message. */
  lemma TwoMessagesInOrder(received: seq<Incoming>, a: string, ma: string, b: string, mb: string, lib: Libraries)
    requires !Run(received, lib).stopped
    requires lib.fromStr(a).Some? && ChatMessage(lib.fromStr(a).value) == Some(ma)
    requires lib.fromStr(b).Some? && ChatMessage(lib.fromStr(b).value) == Some(mb)
    ensures Run(received + [Ok(Text(a)), Ok(Text(b))], lib).sent
            == Run(received, lib).sent + [TextFrame(RenderFragment(lib.clean(ma))), TextFrame(RenderFragment(lib.clean(mb)))]
  {
    TextAnswered(received, a, ma, lib);
    var once := received + [Ok(Text(a))];
    TextAnswered(once, b, mb, lib);
    assert received + [Ok(Text(a)), Ok(Text(b))] == once + [Ok(Text(b))];
  }

  /**
   * Where an outbound frame comes from: a Text frame is the greeting or the
   * reply to a received Text frame (so its user text went through `clean`); a
   * Binary or Close frame repeats a received one.
   */
  ghost predicate Traced(f: Outbound, received: seq<Incoming>, lib: Libraries)
  {
    match f
    case TextFrame(t) =>
      t == Greeting
      || exists j :: 0 <= j < |received| && received[j].Ok? && received[j].value.Text?
                     && TextReply(received[j].value.text, lib) == Some(t)
    case BinaryFrame(bin) => Ok(Binary(bin)) in received
    case CloseFrame(reason) => Ok(Close(reason)) in received
  }

  lemma TracedLater(f: Outbound, received: seq<Incoming>, msg: Incoming, lib: Libraries)
    requires Traced(f, received, lib)
    ensures Traced(f, received + [msg], lib)
  {
    var later := received + [msg];
    if f.TextFrame? && f.text != Greeting {
      var j :| 0 <= j < |received| && received[j].Ok? && received[j].value.Text?
               && TextReply(received[j].value.text, lib) == Some(f.text);
      assert later[j] == received[j];
    }
  }

  /** The session invents no frame: every frame it sent is traced to the greeting or to its input. */
  lemma {:induction false} AllFramesTraced(received: seq<Incoming>, lib: Libraries)
    ensures forall i :: 0 <= i < |Run(received, lib).sent| ==> Traced(Run(received, lib).sent[i], received, lib)
    decreases |received|
  {
    if received != [] {
      var init := received[..|received| - 1];
      var msg := received[|received| - 1];
      assert received == init + [msg];
      AllFramesTraced(init, lib);
      RunAppend(init, msg, lib);
      var before := Run(init, lib).sent;
      var after := Run(received, lib).sent;
      forall i | 0 <= i < |after|
        ensures Traced(after[i], received, lib)
      {
        if i < |before| {
          TracedLater(before[i], init, msg, lib);
        } else {
          assert received[|init|] == msg;
        }
      }
    }
  }

  /**
   * The session has stopped exactly when its last frame is a Close, and a
   * Close frame can only be the last one: at most one Close is ever sent.
   */
  lemma {:induction false} CloseIsLast(received: seq<Incoming>, lib: Libraries)
    ensures var v := Run(received, lib);
            |v.sent| > 0
            && (v.stopped <==> v.sent[|v.sent| - 1].CloseFrame?)
            && forall i :: 0 <= i < |v.sent| && v.sent[i].CloseFrame? ==> i == |v.sent| - 1
    decreases |received|
  {
    if received != [] {
      var init := received[..|received| - 1];
      var msg := received[|received| - 1];
      assert received == init + [msg];
      CloseIsLast(init, lib);
      RunAppend(init, msg, lib);
    }
  }

  /** The `ChatSocket` actor together with its context. */
  class Session {
    const lib: Libraries
    /** Frames queued by `ctx.text`, `ctx.binary` and `ctx.close`, oldest first. */
    var sent: seq<Outbound>
    /** Set by `ctx.stop`. */
    var stopped: bool
    /** Whether the runtime has called `started`. */
    ghost var started: bool
    /** The inbound frames handled so far. */
    ghost var received: seq<Incoming>

    ghost predicate Valid()
      reads this
    {
      if started then View(sent, stopped) == Run(received, lib)
      else sent == [] && !stopped && received == []
    }

    /** `ws::start(ChatSocket {}, ...)`: a new actor, nothing sent yet. */
    constructor (lib: Libraries)
      ensures Valid() && this.lib == lib
      ensures !started && sent == [] && !stopped && received == []
    {
      this.lib := lib;
      sent := [];
      stopped := false;
      started := false;
      received := [];
    }

    /** `ctx.text`. */
    method SendText(text: string)
      modifies this`sent
      ensures sent == old(sent) + [TextFrame(text)]
    {
      sent := sent + [TextFrame(text)];
    }

    /** `ctx.binary`. */
    method SendBinary(data: Bytes)
      modifies this`sent
      ensures sent == old(sent) + [BinaryFrame(data)]
    {
      sent := sent + [BinaryFrame(data)];
    }

    /** `ctx.close`. */
    method SendClose(reason: Option<CloseReason>)
      modifies this`sent
      ensures sent == old(sent) + [CloseFrame(reason)]
    {
      sent := sent + [CloseFrame(reason)];
    }

    /** `ctx.stop`. */
    method Stop()
      modifies this`stopped
      ensures stopped
    {
      stopped := true;
    }

    /** `started`: the greeting goes out before any inbound frame is handled. */
    method Started()
      requires Valid() && !started
      modifies this
      ensures Valid() && started
      ensures sent == [TextFrame(Greeting)] && !stopped && received == []
    {
      SendText(Greeting);
      started := true;
    }

    /** `handle`: dispatch one inbound frame by its kind. */
    method Handle(msg: Incoming)
      requires Valid() && started
      modifies this
      ensures Valid() && started
      ensures received == old(received) + [msg]
      ensures View(sent, stopped) == Step(View(old(sent), old(stopped)), msg, lib)
    {
      RunAppend(received, msg, lib);
      received := received + [msg];
      // After `ctx.stop` the runtime delivers no further frames to the actor.
      if stopped {
        return;
      }
      match msg {
        case Ok(Text(text)) =>
          var parsed := lib.fromStr(text);
          if parsed.Some? {
            var chatMessage := ChatMessage(parsed.value);
            if chatMessage.Some? {
              var sanitized := lib.clean(chatMessage.value);
              SendText(RenderFragment(sanitized));
            }
          }
        case Ok(Binary(bin)) =>
          SendBinary(bin);
        case Ok(Close(reason)) =>
          SendClose(reason);
          Stop();
        case Ok(Continuation(_)) =>
        case Ok(Nop) =>
        case _ =>
      }
    }
  }
}

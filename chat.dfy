/**
  * The component's state and its transitions, as values.
  *
  * The `Home` component holds four pieces of state: the text being composed, the
  * chat history, the last detected letter and the camera switch. Every handler of
  * the component is one transition `State -> State` here; `Run` applies a whole
  * sequence of user, network and timer events. The class in module `Component`
  * performs the same transitions in place and is proved against these functions.
  */
module Chat {
  import opened Optional
  import opened Gestures
  import opened Whitespace

  const CamOn := "on"
  const CamOff := "off"

  /** The video element's `readyState` once enough data is available (`HAVE_ENOUGH_DATA`). */
  const HaveEnoughData := 4

  const TeacherPrefix := "Teacher: "
  const StudentPrefix := "Student: "

  datatype State = State(
    inputText: string,
    messages: seq<string>,
    detectedGesture: Option<string>,
    camState: string)

  /**
    * The gesture estimator for one hand: given the landmarks and the minimum
    * confidence, it reports its candidates, or `None` when the result carries no
    * gesture list at all.
    */
  type Estimator = (seq<Landmark>, real) -> Option<seq<Gesture>>

  /** The state at mount. */
  function Initial(): State {
    State("", [], None, CamOn)
  }

  /** The camera switch holds one of its two values. */
  predicate CamValid(s: State) {
    s.camState == CamOn || s.camState == CamOff
  }

  /** What every reachable state satisfies: a valid switch and, if a letter was shown, a non-empty one. */
  predicate Valid(s: State) {
    CamValid(s) && (s.detectedGesture.Some? ==> s.detectedGesture.value != "")
  }

  /** Whether the detection cycle may run: a webcam is mounted and its video has enough data. */
  predicate VideoReady(webcamMounted: bool, readyState: int) {
    webcamMounted && readyState == HaveEnoughData
  }

  /** The socket's `onmessage` handler. */
  function Receive(s: State, data: string): State {
    s.(messages := s.messages + [TeacherPrefix + data])
  }

  /**
    * The WebSocket's connection state as `send` sees it. While connecting, `send`
    * throws; once closing or closed it discards the data without throwing.
    */
  datatype Socket = Connecting | Open | Closed

  /**
    * The send button: only a text that is non-empty after trimming is posted.
    * The student line is queued before the socket is used; if `send` throws
    * (socket still connecting) the handler stops there and the input is kept.
    */
  function Send(s: State, socket: Socket): State {
    if Trim(s.inputText) == "" then s
    else
      var posted := s.(messages := s.messages + [StudentPrefix + s.inputText]);
      if socket == Connecting then posted else posted.(inputText := "")
  }

  /** The text the socket actually transmits for a send, if anything. */
  function Outgoing(s: State, socket: Socket): Option<string> {
    if Trim(s.inputText) == "" || socket != Open then None else Some(s.inputText)
  }

  /** The reset button. */
  function Reset(s: State): State {
    s.(inputText := "")
  }

  /** Typing in the input box replaces the text being composed. */
  function Edit(s: State, value: string): State {
    s.(inputText := value)
  }

  /** The camera button. */
  function Toggle(s: State): State {
    s.(camState := if s.camState == CamOn then CamOff else CamOn)
  }

  /** The letter one detection cycle recognises, if any: the best candidate for the first hand. */
  function Recognise(ready: bool, hands: seq<Hand>, estimate: Estimator): Option<string> {
    if !ready || hands == [] then None
    else
      match estimate(hands[0].landmarks, MinConfidence)
      case None => None
      case Some(gs) =>
        if gs == [] then None
        else
          var best := SelectBest(gs);
          if best.name == "" then None else Some(best.name)
  }

  /** One detection cycle: a recognised letter is shown and appended to the text being composed. */
  function Detect(s: State, ready: bool, hands: seq<Hand>, estimate: Estimator): State {
    match Recognise(ready, hands, estimate)
    case None => s
    case Some(name) => s.(detectedGesture := Some(name), inputText := s.inputText + name)
  }

  /**
    * Sending a blank text changes nothing and transmits nothing. Otherwise the
    * untrimmed text joins the history once; the input is cleared unless the socket
    * threw, and the text is transmitted only on an open socket.
    */
  lemma SendSpec(s: State, socket: Socket)
    ensures IsBlank(s.inputText) ==> Send(s, socket) == s && Outgoing(s, socket) == None
    ensures !IsBlank(s.inputText) ==>
              Send(s, socket).messages == s.messages + ["Student: " + s.inputText] &&
              Send(s, socket).inputText == (if socket == Connecting then s.inputText else "") &&
              Send(s, socket).detectedGesture == s.detectedGesture &&
              Send(s, socket).camState == s.camState &&
              Outgoing(s, socket) == (if socket == Open then Some(s.inputText) else None)
  {
    TrimEmptyIffBlank(s.inputText);
  }

  /** After a send that did not throw, the input is blank, so a second send changes nothing. */
  lemma SendTwice(s: State, first: Socket, second: Socket)
    requires first != Connecting
    ensures IsBlank(Send(s, first).inputText)
    ensures Send(Send(s, first), second) == Send(s, first)
  {
    SendSpec(s, first);
    SendSpec(Send(s, first), second);
  }

  /** A non-blank send while the socket is connecting keeps the input, so each further click appends the line again. */
  lemma SendWhileConnecting(s: State)
    requires !IsBlank(s.inputText)
    ensures Send(Send(s, Connecting), Connecting).messages ==
            s.messages + ["Student: " + s.inputText, "Student: " + s.inputText]
    ensures Send(Send(s, Connecting), Connecting).inputText == s.inputText
  {
    SendSpec(s, Connecting);
    SendSpec(Send(s, Connecting), Connecting);
  }

  /** An incoming message lands at the end of the history; nothing else moves. */
  lemma ReceiveSpec(s: State, data: string)
    ensures |Receive(s, data).messages| == |s.messages| + 1
    ensures Receive(s, data).messages[..|s.messages|] == s.messages
    ensures Receive(s, data).messages[|s.messages|] == "Teacher: " + data
    ensures Receive(s, data).inputText == s.inputText
    ensures Receive(s, data).detectedGesture == s.detectedGesture
    ensures Receive(s, data).camState == s.camState
  {
  }

  /** Reset empties the input only, and resetting twice is resetting once. */
  lemma ResetSpec(s: State)
    ensures Reset(s).inputText == ""
    ensures Reset(s).messages == s.messages
    ensures Reset(s).detectedGesture == s.detectedGesture
    ensures Reset(s).camState == s.camState
    ensures Reset(Reset(s)) == Reset(s)
  {
  }

  /** The camera switch alternates between its two values; two presses restore it. */
  lemma ToggleSpec(s: State)
    requires CamValid(s)
    ensures CamValid(Toggle(s))
    ensures Toggle(s).camState != s.camState
    ensures Toggle(Toggle(s)) == s
  {
  }

  /**
    * A detection cycle does nothing when the video is not ready, no hand is seen,
    * or the estimator reports no candidate; otherwise, if the best candidate of
    * the first hand has a name, that name is shown and appended. It never touches
    * the history or the camera.
    */
  lemma DetectSpec(s: State, ready: bool, hands: seq<Hand>, estimate: Estimator)
    ensures Detect(s, ready, hands, estimate).messages == s.messages
    ensures Detect(s, ready, hands, estimate).camState == s.camState
    ensures !ready || hands == [] ==> Detect(s, ready, hands, estimate) == s
    ensures ready && hands != [] ==>
              var found := estimate(hands[0].landmarks, MinConfidence);
              (found.None? || found.value == [] ==> Detect(s, ready, hands, estimate) == s) &&
              (found.Some? && found.value != [] ==>
                 var best := SelectBest(found.value);
                 best in found.value &&
                 (forall g :: g in found.value ==> g.score <= best.score) &&
                 Detect(s, ready, hands, estimate) ==
                   if best.name == "" then s
                   else s.(detectedGesture := Some(best.name), inputText := s.inputText + best.name))
  {
  }

  /** Hands after the first one have no influence on a detection cycle. */
  lemma DetectUsesFirstHandOnly(s: State, ready: bool, h: Hand, more: seq<Hand>, others: seq<Hand>, estimate: Estimator)
    ensures Detect(s, ready, [h] + more, estimate) == Detect(s, ready, [h] + others, estimate)
  {
    assert ([h] + more)[0] == h == ([h] + others)[0];
  }

  /** Everything that can happen to the component. */
  datatype Event =
    | Typed(value: string)
    | Received(data: string)
    | SendClicked(socket: Socket)
    | ResetClicked
    | CameraToggled
    | Tick(webcamMounted: bool, readyState: int, hands: seq<Hand>, estimate: Estimator)

  function Apply(s: State, e: Event): State {
    match e
    case Typed(value) => Edit(s, value)
    case Received(data) => Receive(s, data)
    case SendClicked(socket) => Send(s, socket)
    case ResetClicked => Reset(s)
    case CameraToggled => Toggle(s)
    case Tick(mounted, readyState, hands, estimate) =>
      Detect(s, VideoReady(mounted, readyState), hands, estimate)
  }

  /** The state after the events, applied in order. */
  function Run(s: State, evs: seq<Event>): State
    decreases |evs|
  {
    if evs == [] then s else Run(Apply(s, evs[0]), evs[1..])
  }

  /** An entry of the history as the component writes it: from the teacher or from the student. */
  predicate IsChatLine(m: string) {
    TeacherPrefix <= m || StudentPrefix <= m
  }

  /** The number of camera presses among the events. */
  function Toggles(evs: seq<Event>): nat
    decreases |evs|
  {
    if evs == [] then 0 else (if evs[0].CameraToggled? then 1 else 0) + Toggles(evs[1..])
  }

  /** Only receives and sends can change the history. */
  predicate Quiet(e: Event) {
    !e.Received? && !e.SendClicked?
  }

  /** One event either keeps the history or appends one chat line to it. */
  lemma ApplyHistory(s: State, e: Event)
    ensures Apply(s, e).messages == s.messages ||
            (exists m :: IsChatLine(m) && Apply(s, e).messages == s.messages + [m])
    ensures Quiet(e) ==> Apply(s, e).messages == s.messages
  {
    match e
    case Received(data) =>
      assert IsChatLine(TeacherPrefix + data);
    case SendClicked(_) =>
      assert IsChatLine(StudentPrefix + s.inputText);
    case Tick(mounted, readyState, hands, estimate) =>
      DetectSpec(s, VideoReady(mounted, readyState), hands, estimate);
    case _ =>
  }

  /** The history is append-only, and everything appended is a chat line. */
  lemma {:induction false} RunHistory(s: State, evs: seq<Event>)
    ensures s.messages <= Run(s, evs).messages
    ensures forall i :: |s.messages| <= i < |Run(s, evs).messages| ==> IsChatLine(Run(s, evs).messages[i])
    ensures |Run(s, evs).messages| <= |s.messages| + |evs|
    decreases |evs|
  {
    if evs != [] {
      var s1 := Apply(s, evs[0]);
      ApplyHistory(s, evs[0]);
      RunHistory(s1, evs[1..]);
      var t := Run(s1, evs[1..]);
      forall i | |s.messages| <= i < |t.messages| ensures IsChatLine(t.messages[i]) {
        if i < |s1.messages| {
          assert t.messages[i] == s1.messages[i];
        }
      }
    }
  }

  /** Without receives and sends, the history stays exactly as it was. */
  lemma {:induction false} RunQuiet(s: State, evs: seq<Event>)
    requires forall k :: 0 <= k < |evs| ==> Quiet(evs[k])
    ensures Run(s, evs).messages == s.messages
    decreases |evs|
  {
    if evs != [] {
      ApplyHistory(s, evs[0]);
      RunQuiet(Apply(s, evs[0]), evs[1..]);
    }
  }

  /** Every event keeps the state valid. */
  lemma ApplyValid(s: State, e: Event)
    requires Valid(s)
    ensures Valid(Apply(s, e))
  {
    if e.Tick? {
      DetectSpec(s, VideoReady(e.webcamMounted, e.readyState), e.hands, e.estimate);
    }
  }

  /** Every state reached from a valid one, in particular from the initial state, is valid. */
  lemma {:induction false} RunValid(s: State, evs: seq<Event>)
    requires Valid(s)
    ensures Valid(Run(s, evs))
    decreases |evs|
  {
    if evs != [] {
      ApplyValid(s, evs[0]);
      RunValid(Apply(s, evs[0]), evs[1..]);
    }
  }

  /** Only a camera press moves the switch, and it flips it. */
  lemma ApplyCamera(s: State, e: Event)
    ensures Apply(s, e).camState == if e.CameraToggled? then Toggle(s).camState else s.camState
  {
    if e.Tick? {
      DetectSpec(s, VideoReady(e.webcamMounted, e.readyState), e.hands, e.estimate);
    }
  }

  /** The camera is in its starting position after an even number of presses and flipped after an odd number. */
  lemma {:induction false} RunCamera(s: State, evs: seq<Event>)
    requires CamValid(s)
    ensures Run(s, evs).camState == if Toggles(evs) % 2 == 0 then s.camState else Toggle(s).camState
    decreases |evs|
  {
    if evs != [] {
      var s1 := Apply(s, evs[0]);
      ApplyCamera(s, evs[0]);
      assert CamValid(s1);
      RunCamera(s1, evs[1..]);
      assert Run(s, evs) == Run(s1, evs[1..]);
      assert Toggles(evs) == (if evs[0].CameraToggled? then 1 else 0) + Toggles(evs[1..]);
    }
  }
}

/**
  * The `Home` component as an object whose handlers update its state in place.
  *
  * Each React state hook is a field; each handler is a method that changes the
  * fields it names and nothing else, and is proved to perform the corresponding
  * transition of module `Chat` on the abstract state `Model()`.
  */
module Component {
  import opened Optional
  import opened Gestures
  import opened Whitespace
  import Chat

  class Home {
    var camState: string
    var detectedGesture: Option<string>
    var inputText: string
    var messages: seq<string>

    /** The component's state as a value. */
    function Model(): Chat.State
      reads this
    {
      Chat.State(inputText, messages, detectedGesture, camState)
    }

    predicate Valid()
      reads this
    {
      Chat.Valid(Model())
    }

    /** Mounting: camera on, nothing detected, empty input, empty history. */
    constructor ()
      ensures Valid()
      ensures Model() == Chat.Initial()
      ensures camState == "on" && detectedGesture == None && inputText == "" && messages == []
    {
      camState := Chat.CamOn;
      detectedGesture := None;
      inputText := "";
      messages := [];
    }

    /** The socket's `onmessage`: the payload joins the history, attributed to the teacher. */
    method OnMessage(data: string)
      requires Valid()
      modifies this`messages
      ensures Valid()
      ensures Model() == Chat.Receive(old(Model()), data)
      ensures messages == old(messages) + ["Teacher: " + data]
    {
      messages := messages + [Chat.TeacherPrefix + data];
    }

    /**
      * One timer tick of `detect`. The video readiness, the detected hands and the
      * estimator are inputs; only the first hand is given to the estimator. When a
      * named gesture is recognised it is shown and appended to the input.
      */
    method Detect(webcamMounted: bool, readyState: int, hands: seq<Hand>, estimate: Chat.Estimator)
      requires Valid()
      modifies this`detectedGesture, this`inputText
      ensures Valid()
      ensures Model() == Chat.Detect(old(Model()), Chat.VideoReady(webcamMounted, readyState), hands, estimate)
      ensures !Chat.VideoReady(webcamMounted, readyState) || hands == [] ==> unchanged(this)
      ensures (detectedGesture == old(detectedGesture) && inputText == old(inputText)) ||
              exists name :: name != "" && detectedGesture == Some(name) && inputText == old(inputText) + name
    {
      if Chat.VideoReady(webcamMounted, readyState) && |hands| > 0 {
        var found := estimate(hands[0].landmarks, MinConfidence);
        if found.Some? && |found.value| > 0 {
          var best := SelectBest(found.value);
          if best.name != "" {
            detectedGesture := Some(best.name);
            inputText := inputText + best.name;
          }
        }
      }
    }

    /** The camera button: "on" and "off" alternate. */
    method TurnOffCamera()
      requires Valid()
      modifies this`camState
      ensures Valid()
      ensures Model() == Chat.Toggle(old(Model()))
      ensures camState == if old(camState) == "on" then "off" else "on"
    {
      camState := if camState == Chat.CamOn then Chat.CamOff else Chat.CamOn;
    }

    /** The reset button: the input is emptied. */
    method ResetInput()
      requires Valid()
      modifies this`inputText
      ensures Valid()
      ensures Model() == Chat.Reset(old(Model()))
      ensures inputText == ""
    {
      inputText := "";
    }

    /** Typing in the input box. */
    method EditInput(value: string)
      requires Valid()
      modifies this`inputText
      ensures Valid()
      ensures Model() == Chat.Edit(old(Model()), value)
      ensures inputText == value
    {
      inputText := value;
    }

    /**
      * The send button, with the socket's connection state as input. A blank
      * input changes nothing and transmits nothing. Otherwise the untrimmed text
      * is appended to the history as the student's; on a connecting socket `send`
      * throws and the input is kept, on any other the input is cleared. The text
      * is transmitted (`outgoing`) only on an open socket.
      */
    method SendMessage(socket: Chat.Socket) returns (outgoing: Option<string>)
      requires Valid()
      modifies this`messages, this`inputText
      ensures Valid()
      ensures Model() == Chat.Send(old(Model()), socket)
      ensures outgoing == Chat.Outgoing(old(Model()), socket)
      ensures IsBlank(old(inputText)) ==> unchanged(this) && outgoing == None
      ensures !IsBlank(old(inputText)) ==>
                messages == old(messages) + ["Student: " + old(inputText)] &&
                inputText == (if socket == Chat.Connecting then old(inputText) else "") &&
                outgoing == (if socket == Chat.Open then Some(old(inputText)) else None)
    {
      TrimEmptyIffBlank(inputText);
      outgoing := None;
      if Trim(inputText) != "" {
        messages := messages + [Chat.StudentPrefix + inputText];
        if socket == Chat.Connecting {
          return;
        }
        if socket == Chat.Open {
          outgoing := Some(inputText);
        }
        inputText := "";
      }
    }
  }
}

/** `tryConnect`, `tryFlatConnect` and the network error classification behind them
    (network/TryConnect.kt). */
module NetworkErrors {
  import opened Wrappers
  import opened Text
  import opened Responses

  /** How a nullable exception message is printed inside `listOf(...).joinToString`: `null` becomes "null". */
  function MessageLine(e: Exception): string {
    e.message.GetOr("null")
  }

  /** The message that replaces the error of a `SocketTimeoutException`: its seven lines joined by "\n". */
  function TimeoutMessage(extraErrorInfo: string, e: Exception): (m: string)
    ensures m == "Timeout error.\n\nInfo:\n" + IfBlank(extraErrorInfo, "No info") + "\n\nMessage:\n" + MessageLine(e)
  {
    HeaderLines("Timeout error.", IfBlank(extraErrorInfo, "No info"), MessageLine(e));
    Join(["Timeout error.", "", "Info:", IfBlank(extraErrorInfo, "No info"), "", "Message:", MessageLine(e)], "\n")
  }

  /** The message that replaces the error of any other exception: its ten lines joined by "\n". */
  function UnknownMessage(extraErrorInfo: string, e: Exception): (m: string)
    ensures m == "Unknown error.\n\nInfo:\n" + IfBlank(extraErrorInfo, "No Info") + "\n\nMessage:\n" + MessageLine(e)
                 + "\n\nStacktrace:\n" + e.stackTrace
  {
    var info, msg, trace := IfBlank(extraErrorInfo, "No Info"), MessageLine(e), e.stackTrace;
    UnknownSplit(info, msg, trace);
    HeaderLines("Unknown error.", info, msg);
    TrailerLines(trace);
    var h := "Unknown error." + "\n\nInfo:\n" + info + "\n\nMessage:\n" + msg;
    assert h + "\n" + ("\nStacktrace:\n" + trace) == h + "\n\nStacktrace:\n" + trace;
    assert "Unknown error." + "\n\nInfo:\n" == "Unknown error.\n\nInfo:\n";
    Join(["Unknown error.", "", "Info:", info, "", "Message:", msg, "", "Stacktrace:", trace], "\n")
  }

  /** The message an error of exception `e` is given: chosen by whether `e` is a timeout. */
  function ErrorMessage(extraErrorInfo: string, e: Exception): string {
    if e.isTimeout then TimeoutMessage(extraErrorInfo, e) else UnknownMessage(extraErrorInfo, e)
  }

  /** `specifyNetworkErrors`: every error is rewritten into the message of its class, keeping its exception;
      a success passes through. */
  function SpecifyNetworkErrors<T>(r: Response<T>, extraErrorInfo: string): (s: Response<T>)
    ensures r.Success? ==> s == r
    ensures r.Error? ==> s == Error(ErrorMessage(extraErrorInfo, r.exception), r.exception)
  {
    FlatMapError(r, (m: string, e: Exception) =>
      if e.isTimeout then Error(TimeoutMessage(extraErrorInfo, e), e)
      else Error(UnknownMessage(extraErrorInfo, e), e))
  }

  /** `tryConnect(extraErrorInfo) { call() }`: a returned value is a success, a thrown exception a classified
      error that keeps the exception. */
  function TryConnect<T>(extraErrorInfo: string, call: Outcome<T>): (r: Response<T>)
    ensures call.Returned? ==> r == Success(call.value)
    ensures call.Threw? ==> r == Error(ErrorMessage(extraErrorInfo, call.exception), call.exception)
  {
    SpecifyNetworkErrors(TryAsResponse(call), extraErrorInfo)
  }

  /** `tryFlatConnect(extraErrorInfo) { call() }`, where the call itself answers with a `Response`: an error
      it returns is classified exactly like an exception it throws. */
  function TryFlatConnect<T>(extraErrorInfo: string, call: Outcome<Response<T>>): (r: Response<T>)
    ensures call.Returned? && call.value.Success? ==> r == call.value
    ensures call.Returned? && call.value.Error? ==> r == TryConnect(extraErrorInfo, Threw(call.value.exception))
    ensures call.Threw? ==> r == TryConnect(extraErrorInfo, Threw(call.exception))
  {
    SpecifyNetworkErrors(Flatten(TryAsResponse(call)), extraErrorInfo)
  }

  /** An error message starts with "Timeout error." exactly when its exception is a timeout. */
  lemma TimeoutClassification(extraErrorInfo: string, e: Exception)
    ensures StartsWith(ErrorMessage(extraErrorInfo, e), "Timeout error.") <==> e.isTimeout
    ensures StartsWith(ErrorMessage(extraErrorInfo, e), "Unknown error.") <==> !e.isTimeout
  {
    var m := ErrorMessage(extraErrorInfo, e);
    if e.isTimeout {
      assert m[0] == 'T';
    } else {
      assert m[0] == 'U';
    }
  }

  /** With no extra information the two classes word the placeholder differently: "No info" and "No Info". */
  lemma BlankInfoPlaceholder(extraErrorInfo: string, e: Exception)
    requires IsBlank(extraErrorInfo)
    ensures e.isTimeout ==>
      ErrorMessage(extraErrorInfo, e) == "Timeout error.\n\nInfo:\nNo info\n\nMessage:\n" + MessageLine(e)
    ensures !e.isTimeout ==>
      ErrorMessage(extraErrorInfo, e)
      == "Unknown error.\n\nInfo:\nNo Info\n\nMessage:\n" + MessageLine(e) + "\n\nStacktrace:\n" + e.stackTrace
  {
    BlankTimeoutInfo(extraErrorInfo, e);
    BlankUnknownInfo(extraErrorInfo, e);
  }

  lemma BlankTimeoutInfo(extraErrorInfo: string, e: Exception)
    requires IsBlank(extraErrorInfo)
    ensures TimeoutMessage(extraErrorInfo, e) == "Timeout error.\n\nInfo:\nNo info\n\nMessage:\n" + MessageLine(e)
  {
    var head := "Timeout error.\n\nInfo:\n" + "No info" + "\n\nMessage:\n";
    assert head == "Timeout error.\n\nInfo:\nNo info\n\nMessage:\n";
    assert "Timeout error.\n\nInfo:\n" + "No info" + "\n\nMessage:\n" + MessageLine(e) == head + MessageLine(e);
  }

  lemma BlankUnknownInfo(extraErrorInfo: string, e: Exception)
    requires IsBlank(extraErrorInfo)
    ensures UnknownMessage(extraErrorInfo, e)
         == "Unknown error.\n\nInfo:\nNo Info\n\nMessage:\n" + MessageLine(e) + "\n\nStacktrace:\n" + e.stackTrace
  {
    var head := "Unknown error.\n\nInfo:\n" + "No Info" + "\n\nMessage:\n";
    assert head == "Unknown error.\n\nInfo:\nNo Info\n\nMessage:\n";
    assert "Unknown error.\n\nInfo:\n" + "No Info" + "\n\nMessage:\n" + MessageLine(e) == head + MessageLine(e);
  }

  /** The stack trace closes the unknown-error message and nothing follows it; the timeout message closes
      with the exception's message instead. */
  lemma MessageEndings(extraErrorInfo: string, e: Exception)
    ensures !e.isTimeout ==> EndsWith(ErrorMessage(extraErrorInfo, e), "\n\nStacktrace:\n" + e.stackTrace)
    ensures e.isTimeout ==> EndsWith(ErrorMessage(extraErrorInfo, e), "\n\nMessage:\n" + MessageLine(e))
  {
    var m := ErrorMessage(extraErrorInfo, e);
    if e.isTimeout {
      var pre := "Timeout error.\n\nInfo:\n" + IfBlank(extraErrorInfo, "No info");
      assert m == pre + ("\n\nMessage:\n" + MessageLine(e));
    } else {
      var pre := "Unknown error.\n\nInfo:\n" + IfBlank(extraErrorInfo, "No Info") + "\n\nMessage:\n" + MessageLine(e);
      assert m == pre + ("\n\nStacktrace:\n" + e.stackTrace);
    }
  }

  lemma UnknownSplit(info: string, msg: string, trace: string)
    ensures Join(["Unknown error.", "", "Info:", info, "", "Message:", msg, "", "Stacktrace:", trace], "\n")
         == Join(["Unknown error.", "", "Info:", info, "", "Message:", msg], "\n") + "\n" + Join(["", "Stacktrace:", trace], "\n")
  {
    var header := ["Unknown error.", "", "Info:", info, "", "Message:", msg];
    var trailer := ["", "Stacktrace:", trace];
    assert header + trailer == ["Unknown error.", "", "Info:", info, "", "Message:", msg, "", "Stacktrace:", trace];
    JoinAppend(header, trailer, "\n");
  }

  /** A blank line, a heading and its value. */
  lemma LabelledLines(heading: string, value: string)
    ensures Join(["", heading, value], "\n") == "\n" + heading + "\n" + value
  {
    JoinCons(heading, [value], "\n");
    assert ["", heading, value] == [""] + [heading, value];
    JoinCons("", [heading, value], "\n");
  }

  lemma TrailerLines(trace: string)
    ensures Join(["", "Stacktrace:", trace], "\n") == "\nStacktrace:\n" + trace
  {
    LabelledLines("Stacktrace:", trace);
  }

  /** The title, a blank line, and the labelled extra information. */
  lemma TitleLines(title: string, info: string)
    ensures Join([title, "", "Info:", info], "\n") == title + "\n\nInfo:\n" + info
  {
    LabelledLines("Info:", info);
    assert [title, "", "Info:", info] == [title] + ["", "Info:", info];
    JoinCons(title, ["", "Info:", info], "\n");
    assert "\n" + ("\n" + "Info:" + "\n" + info) == "\n\nInfo:\n" + info;
  }

  /** The seven lines both messages start with. */
  lemma HeaderLines(title: string, info: string, msg: string)
    ensures Join([title, "", "Info:", info, "", "Message:", msg], "\n")
         == title + "\n\nInfo:\n" + info + "\n\nMessage:\n" + msg
  {
    var front, back := [title, "", "Info:", info], ["", "Message:", msg];
    assert front + back == [title, "", "Info:", info, "", "Message:", msg];
    JoinAppend(front, back, "\n");
    TitleLines(title, info);
    LabelledLines("Message:", msg);
    var t := title + "\n\nInfo:\n" + info;
    var m := "\n" + ("\n" + "Message:" + "\n" + msg);
    assert m == "\n\nMessage:\n" + msg;
    assert t + "\n" + ("\n" + "Message:" + "\n" + msg) == t + m;
  }

  /** Joining two non-empty lists is joining each and putting the separator between them. */
  lemma {:induction false} JoinAppend(front: seq<string>, back: seq<string>, separator: string)
    requires |front| > 0 && |back| > 0
    ensures Join(front + back, separator) == Join(front, separator) + separator + Join(back, separator)
    decreases |front|
  {
    if |front| == 1 {
      JoinCons(front[0], back, separator);
      assert [front[0]] == front;
    } else {
      assert front + back == [front[0]] + (front[1..] + back);
      JoinCons(front[0], front[1..] + back, separator);
      JoinAppend(front[1..], back, separator);
      JoinCons(front[0], front[1..], separator);
      assert [front[0]] + front[1..] == front;
    }
  }
}

/**
 * The stateful parts of `ExpressTestAdapter`: `reply`, which sets the status
 * and headers of a response step by step before sending, and the registry of
 * open connections that a forced close destroys.
 */
module ExpressAdapter {
  import opened Wrappers
  import opened JsStrings
  import opened Responses

  /** A connected socket; its identity is what the registry's set compares. */
  datatype Socket = Socket(id: nat)

  /** The status code `reply` leaves: a given non-zero code replaces the current one. */
  function StatusAfterReply(current: int, statusCode: Option<int>): int {
    if statusCode.Some? && statusCode.value != 0 then statusCode.value else current
  }

  /** The headers `reply` leaves. */
  function HeadersAfterReply(headers: map<string, HeaderValue>, body: Body): map<string, HeaderValue> {
    match body
    case Nil => headers
    case StreamableFile(sh) => FillStreamHeaders(headers, sh)
    case _ => EnforceJsonContentType(headers, body)
  }

  /** What `reply` sends: nothing for a nil body, the piped stream, JSON for objects, `String(body)` otherwise. */
  function SentByReply(body: Body): Sent {
    match body
    case Nil => SentEmpty
    case StreamableFile(_) => Piped
    case ObjectBody(_, json) => SentJson(json)
    case PrimitiveBody(text) => SentText(text)
  }

  class ExpressTestAdapter {
    /** The sockets currently open, when tracking is on. */
    var openConnections: set<Socket>
    /** Whether `trackOpenConnections` has registered its connection listener. */
    var tracking: bool
    /** Every `socket.destroy()` call, in order. */
    ghost var destroyed: seq<Socket>

    constructor ()
      ensures openConnections == {} && !tracking && destroyed == []
    {
      openConnections := {};
      tracking := false;
      destroyed := [];
    }

    /** `reply(response, body, statusCode)` */
    method Reply(response: Response, body: Body, statusCode: Option<int>)
      modifies response
      ensures response.statusCode == StatusAfterReply(old(response.statusCode), statusCode)
      ensures response.headers == HeadersAfterReply(old(response.headers), body)
      ensures response.sent == SentByReply(body)
    {
      if statusCode.Some? && statusCode.value != 0 {
        response.Status(statusCode.value);
      }
      if body.Nil? {
        response.Send(SentEmpty);
        return;
      }
      HeaderKeys();
      if body.StreamableFile? {
        var sh := body.streamHeaders;
        var contentType := response.GetHeader(CONTENT_TYPE);
        if contentType.None? && sh.contentType.Some? {
          response.SetHeader(CONTENT_TYPE, Text(sh.contentType.value));
        }
        var disposition := response.GetHeader(CONTENT_DISPOSITION);
        if disposition.None? && sh.disposition.Some? {
          response.SetHeader(CONTENT_DISPOSITION, Text(sh.disposition.value));
        }
        var length := response.GetHeader(CONTENT_LENGTH);
        if length.None? && sh.length.Some? {
          response.SetHeader(CONTENT_LENGTH, Number(sh.length.value));
        }
        response.Send(Piped);
        return;
      }
      var responseContentType := response.GetHeader(CONTENT_TYPE);
      if && responseContentType.Some? && responseContentType.value.Text?
         && !StartsWith(responseContentType.value.s, APPLICATION_JSON)
         && IsErrorBody(body)
      {
        response.SetHeader(CONTENT_TYPE, Text(APPLICATION_JSON));
      }
      if body.ObjectBody? {
        response.Send(SentJson(body.json));
      } else {
        response.Send(SentText(body.text));
      }
    }

    /**
     * `initHttpServer`: every call creates a new server, and only that server
     * gets the connection listener, when `forceCloseConnections` is set.
     */
    method InitHttpServer(forceCloseConnections: bool)
      modifies this
      ensures tracking == forceCloseConnections
      ensures openConnections == old(openConnections) && destroyed == old(destroyed)
    {
      tracking := false;
      if forceCloseConnections {
        TrackOpenConnections();
      }
    }

    /** `trackOpenConnections`: register the connection listener. */
    method TrackOpenConnections()
      modifies this
      ensures tracking
      ensures openConnections == old(openConnections) && destroyed == old(destroyed)
    {
      tracking := true;
    }

    /** The server's "connection" event: a tracked adapter adds the socket. */
    method OnConnection(socket: Socket)
      modifies this
      ensures openConnections == if tracking then old(openConnections) + {socket} else old(openConnections)
      ensures tracking == old(tracking) && destroyed == old(destroyed)
    {
      if tracking {
        openConnections := openConnections + {socket};
      }
    }

    /** A socket's "close" event: the socket leaves the registry. */
    method OnSocketClose(socket: Socket)
      modifies this
      ensures openConnections == old(openConnections) - {socket}
      ensures tracking == old(tracking) && destroyed == old(destroyed)
    {
      openConnections := openConnections - {socket};
    }

    /** `closeOpenConnections`: destroy every open socket once and empty the registry. */
    method CloseOpenConnections()
      modifies this
      ensures openConnections == {}
      ensures tracking == old(tracking)
      ensures |destroyed| >= |old(destroyed)| && destroyed[..|old(destroyed)|] == old(destroyed)
      ensures forall s :: s in destroyed[|old(destroyed)|..] <==> s in old(openConnections)
      ensures forall i, j | |old(destroyed)| <= i < j < |destroyed| :: destroyed[i] != destroyed[j]
    {
      ghost var before := |destroyed|;
      while openConnections != {}
        invariant |destroyed| >= before && destroyed[..before] == old(destroyed)
        invariant tracking == old(tracking)
        invariant forall s :: s in destroyed[before..] <==> s in old(openConnections) - openConnections
        invariant openConnections <= old(openConnections)
        invariant forall i, j | before <= i < j < |destroyed| :: destroyed[i] != destroyed[j]
        decreases openConnections
      {
        var socket :| socket in openConnections;
        ghost var done := destroyed[before..];
        assert socket !in done;
        destroyed := destroyed + [socket];
        openConnections := openConnections - {socket};
        assert destroyed[before..] == done + [socket];
        forall i | before <= i < |destroyed| - 1 ensures destroyed[i] != socket {
          assert destroyed[i] == done[i - before];
        }
      }
    }
  }
}

/** Clients of the adapter: two scenarios derived from the contracts alone. */
module ExpressAdapterClient {
  import opened Wrappers
  import opened Responses
  import opened ExpressAdapter
  import opened JsStrings

  /**
   * An empty body with status 204 sends nothing and keeps status 204; an
   * error body `{statusCode: 500, message: "x"}` under a `text/html`
   * Content-Type switches it to `application/json` and is sent as JSON.
   */
  method ReplyExamples(adapter: ExpressTestAdapter) {
    var empty := new Response();
    adapter.Reply(empty, Nil, Some(204));
    assert empty.statusCode == 204 && empty.sent == SentEmpty && empty.headers == map[];

    var failed := new Response();
    failed.SetHeader(CONTENT_TYPE, Text("text/html"));
    HeaderKeys();
    assert !StartsWith("text/html", APPLICATION_JSON) by { assert "text/html"[0] != APPLICATION_JSON[0]; }
    adapter.Reply(failed, ObjectBody(Some(500), "{\"statusCode\":500,\"message\":\"x\"}"), None);
    assert failed.headers[CONTENT_TYPE_KEY] == Text(APPLICATION_JSON);
    assert failed.sent.SentJson?;
  }

  /**
   * Force-closing with two tracked open sockets destroys both, each once,
   * and leaves the registry empty.
   */
  method ForceCloseExample() {
    var adapter := new ExpressTestAdapter();
    adapter.InitHttpServer(true);
    adapter.OnConnection(Socket(1));
    adapter.OnConnection(Socket(2));
    adapter.CloseOpenConnections();
    assert adapter.openConnections == {};
    assert Socket(1) in adapter.destroyed && Socket(2) in adapter.destroyed;
    assert forall i, j | 0 <= i < j < |adapter.destroyed| :: adapter.destroyed[i] != adapter.destroyed[j];
  }
}

/** How a handler picks the headers to forward and puts them on the requests it sends. */
module Headers {
  import opened Execution

  const FORWARDABLE_HEADERS := [
    "X-Request-Id", "X-B3-Traceid", "X-B3-Spanid", "X-B3-Parentspanid",
    "X-B3-Sampled", "X-B3-Flags", "X-Ot-Span-Context"]

  /** The package's init: the list becomes a set. */
  method ForwardableSet() returns (keys: set<string>)
    ensures keys == FORWARDABLE
  {
    keys := {};
    for i := 0 to |FORWARDABLE_HEADERS|
      invariant keys == set k <- FORWARDABLE_HEADERS[..i]
    {
      assert FORWARDABLE_HEADERS[..i + 1] == FORWARDABLE_HEADERS[..i] + [FORWARDABLE_HEADERS[i]];
      keys := keys + {FORWARDABLE_HEADERS[i]};
    }
    assert FORWARDABLE_HEADERS[..|FORWARDABLE_HEADERS|] == FORWARDABLE_HEADERS;
  }

  /** extractForwardableHeader: the keys are visited in any order. */
  method ExtractForwardableHeader(header: Header) returns (forwardable: Header)
    ensures forwardable == Forward(header)
    ensures forall k :: k in forwardable <==>
              k in header && (k == "X-Request-Id" || k == "X-B3-Traceid" || k == "X-B3-Spanid" ||
                              k == "X-B3-Parentspanid" || k == "X-B3-Sampled" || k == "X-B3-Flags" ||
                              k == "X-Ot-Span-Context")
    ensures forall k <- forwardable :: forwardable[k] == header[k]
  {
    var keys := ForwardableSet();
    forwardable := map[];
    while keys != {}
      invariant keys <= FORWARDABLE
      invariant forwardable == map k | k in header && k in FORWARDABLE && k !in keys :: header[k]
      decreases |keys|
    {
      var key :| key in keys;
      if key in header {
        forwardable := forwardable[key := header[key]];
      }
      keys := keys - {key};
    }
  }

  class Request {
    var header: Header

    constructor ()
      ensures header == map[]
    {
      header := map[];
    }
  }

  method CopyHeader(request: Request, header: Header)
    modifies request
    ensures request.header == old(request.header) + header
  {
    var keys := header.Keys;
    while keys != {}
      invariant keys <= header.Keys
      invariant request.header == old(request.header) + map k | k in header && k !in keys :: header[k]
      decreases |keys|
    {
      var key :| key in keys;
      request.header := request.header[key := header[key]];
      keys := keys - {key};
    }
    assert header == map k | k in header :: header[k];
  }

  /** The header part of buildRequest. */
  method BuildRequest(header: Header) returns (request: Request)
    ensures fresh(request) && request.header == header
  {
    request := new Request();
    CopyHeader(request, header);
    assert map[] + header == header;
  }

  /**
   One hop keeps the trace headers of a request if and only if the transport, which may add headers
   of its own to the outgoing request, overrides none of them and invents none.
   */
  lemma HopKeepsTrace(h: Header, added: Header)
    ensures Forward(Forward(h) + added) == Forward(h) <==> KeepsTrace(added, Forward(h))
  {
    var next := Forward(h) + added;
    if Forward(next) == Forward(h) {
      forall k | k in FORWARDABLE && k in added ensures k in Forward(h) && added[k] == Forward(h)[k] {
        assert k in Forward(next) && Forward(next)[k] == added[k];
      }
    }
  }
}

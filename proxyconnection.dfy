/** `tcp_connection`: one relayed TCP session. Each asio completion handler is a method;
    the outcome of the socket operation it completes (success, end of file, error, the
    bytes that arrived, how many endpoints the resolver found) is a parameter. The
    operation a connection is waiting for is explicit state, so a handler can only run
    when its operation is the one outstanding. */
module ProxyConnection {

  /** Size of `cbuffer` and `sbuffer`. */
  const BufferSize := 8192

  /** The asynchronous operation the connection is waiting on. */
  datatype Pending =
    | Idle                                          // no I/O outstanding
    | ClientRead                                    // async_read on the client socket
    | Resolve(len: nat)                             // async_resolve of the forward target
    | Connect(remaining: nat, len: nat)             // async_connect; endpoints left after this one
    | ServerWrite(data: seq<char>)                  // async_write to the server
    | ServerRead(cap: nat)                          // async_read on the server socket, at most cap bytes
    | ClientWrite(data: seq<char>)                  // async_write to the client

  /** How an asynchronous read on the server socket ended. */
  datatype ReadOutcome = ReadOk | ReadEof | ReadError

  class TcpConnection {
    const forwardIP: string
    const forwardPort: int
    var proxyClosed: bool
    var isPersistent: bool
    var isOpened: bool
    /** `csocket_` is open: `async_accept` opened it, `shutdown` closes it. */
    var clientOpen: bool
    /** `ssocket_` is open: `async_connect` opens it, `shutdown` closes it. */
    var serverOpen: bool
    const cbuffer: array<char>
    const sbuffer: array<char>
    var pending: Pending
    /** How many reads of the client socket were ever issued. */
    var clientReads: nat

    ghost predicate Valid()
      reads this
    {
      && cbuffer.Length == BufferSize && sbuffer.Length == BufferSize && cbuffer != sbuffer
      && !isPersistent
      && clientReads <= 1
      && (!pending.Idle? ==> clientReads == 1)
      && (pending.Resolve? ==> !isOpened && pending.len <= BufferSize)
      && (pending.Connect? ==> pending.len <= BufferSize)
      && (pending.ServerRead? ==> pending.cap <= BufferSize && !proxyClosed && isOpened)
      && (pending.ServerWrite? ==> isOpened)
      && (pending.ClientWrite? ==> isOpened && |pending.data| <= BufferSize)
      && (proxyClosed ==> pending.ClientWrite? || pending.Idle?)
      && (proxyClosed || isOpened ==> clientReads == 1)
      && (!pending.Idle? ==> clientOpen)
      && (isOpened && !pending.Idle? ==> serverOpen)
      && (pending.Connect? || pending.ServerWrite? || pending.ServerRead? || pending.ClientWrite? ==> serverOpen)
    }

    /** A connection as `create` makes it: no flag set, nothing outstanding, and both
        sockets constructed but not yet open. */
    constructor (forwardIP: string, forwardPort: int)
      ensures Valid() && fresh(cbuffer) && fresh(sbuffer)
      ensures this.forwardIP == forwardIP && this.forwardPort == forwardPort
      ensures !proxyClosed && !isPersistent && !isOpened
      ensures !clientOpen && !serverOpen && pending == Idle && clientReads == 0
    {
      this.forwardIP, this.forwardPort := forwardIP, forwardPort;
      proxyClosed, isPersistent, isOpened := false, false, false;
      clientOpen, serverOpen := false, false;
      cbuffer := new char[BufferSize];
      sbuffer := new char[BufferSize];
      pending, clientReads := Idle, 0;
    }

    /** `start`: read at least one byte from the client. It is issued once per connection,
        when the server's `async_accept` has completed, which opened the client socket. */
    method Start()
      requires Valid() && pending == Idle && clientReads == 0
      modifies this
      ensures Valid() && pending == ClientRead && clientReads == 1
      ensures proxyClosed == old(proxyClosed) && isOpened == old(isOpened)
      ensures clientOpen && serverOpen == old(serverOpen)
    {
      clientOpen := true;
      pending := ClientRead;
      clientReads := clientReads + 1;
    }

    /** `shutdown`: both sockets are closed; no further callback is expected. */
    method Shutdown()
      requires Valid()
      modifies this
      ensures Valid() && !clientOpen && !serverOpen && pending == Idle
      ensures proxyClosed == old(proxyClosed) && isOpened == old(isOpened) && clientReads == old(clientReads)
    {
      clientOpen, serverOpen := false, false;
      pending := Idle;
    }

    /** `start_forward_to_server`: write exactly the first `len` bytes of `cbuffer`. */
    method StartForwardToServer(len: nat)
      requires Valid() && isOpened && len <= BufferSize && clientReads == 1 && !proxyClosed
      requires clientOpen && serverOpen
      modifies this
      ensures Valid() && pending == ServerWrite(cbuffer[..len])
      ensures proxyClosed == old(proxyClosed) && isOpened == old(isOpened) && clientReads == old(clientReads)
      ensures clientOpen == old(clientOpen) && serverOpen == old(serverOpen)
    {
      pending := ServerWrite(cbuffer[..len]);
    }

    /** `start_connect`: resolve the target while the server side is not open yet, and
        forward straight away once it is. */
    method StartConnect(len: nat)
      requires Valid() && len <= BufferSize && clientReads == 1 && !proxyClosed
      requires clientOpen && (isOpened ==> serverOpen)
      modifies this
      ensures Valid() && clientReads == old(clientReads) && isOpened == old(isOpened)
      ensures !isOpened ==> pending == Resolve(len)
      ensures isOpened ==> pending == ServerWrite(cbuffer[..len])
      ensures clientOpen == old(clientOpen) && serverOpen == old(serverOpen)
    {
      if !isOpened {
        pending := Resolve(len);
      } else {
        StartForwardToServer(len);
      }
    }

    /** `handle_client_read_data`: the bytes read land at the front of `cbuffer` and are
        forwarded; a read error shuts the connection down. */
    method HandleClientReadData(ok: bool, data: seq<char>)
      requires Valid() && pending == ClientRead
      requires ok ==> 1 <= |data| <= BufferSize
      modifies this, cbuffer
      ensures Valid() && clientReads == old(clientReads)
      ensures proxyClosed == old(proxyClosed) && isOpened == old(isOpened)
      ensures ok ==> cbuffer[..|data|] == data && clientOpen == old(clientOpen) && serverOpen == old(serverOpen)
      ensures ok && !isOpened ==> pending == Resolve(|data|)
      ensures ok && isOpened ==> pending == ServerWrite(data)
      ensures !ok ==> pending == Idle && !clientOpen && !serverOpen
    {
      if ok {
        forall i | 0 <= i < |data| {
          cbuffer[i] := data[i];
        }
        assert cbuffer[..|data|] == data;
        StartConnect(|data|);
      } else {
        Shutdown();
      }
    }

    /** `handle_resolve`: connect to the first endpoint found, or shut down. A successful
        resolution yields at least one endpoint; `async_connect` opens the server socket. */
    method HandleResolve(ok: bool, endpoints: nat)
      requires Valid() && pending.Resolve?
      requires ok ==> endpoints >= 1
      modifies this
      ensures Valid() && clientReads == old(clientReads) && !isOpened && proxyClosed == old(proxyClosed)
      ensures ok ==> pending == Connect(endpoints - 1, old(pending.len))
      ensures ok ==> clientOpen == old(clientOpen) && serverOpen
      ensures !ok ==> pending == Idle && !clientOpen && !serverOpen
    {
      if ok {
        serverOpen := true;
        pending := Connect(endpoints - 1, pending.len);
      } else {
        Shutdown();
      }
    }

    /** `handle_connect`: on success the connection is open and the client's bytes are
        written to the server; otherwise the server socket is closed and the next endpoint
        tried, the new `async_connect` opening it again; with none left, shut down. A
        failed `async_connect` leaves the socket it opened open. */
    method HandleConnect(ok: bool)
      requires Valid() && pending.Connect?
      modifies this
      ensures Valid() && clientReads == old(clientReads)
      ensures proxyClosed == old(proxyClosed)
      ensures ok ==> isOpened && pending == ServerWrite(cbuffer[..old(pending.len)])
      ensures ok ==> clientOpen == old(clientOpen) && serverOpen
      ensures !ok && old(pending.remaining) > 0 ==>
        isOpened == old(isOpened) && pending == Connect(old(pending.remaining) - 1, old(pending.len))
        && clientOpen == old(clientOpen) && serverOpen
      ensures !ok && old(pending.remaining) == 0 ==> pending == Idle && !clientOpen && !serverOpen
    {
      if ok {
        isOpened := true;
        StartForwardToServer(pending.len);
      } else if pending.remaining > 0 {
        serverOpen := false;  // ssocket_.close()
        serverOpen := true;   // the next async_connect
        pending := Connect(pending.remaining - 1, pending.len);
      } else {
        Shutdown();
      }
    }

    /** `handle_server_write`: after a successful write, read the server's answer into the
        whole of `sbuffer`; after an error, shut down. */
    method HandleServerWrite(ok: bool)
      requires Valid() && pending.ServerWrite?
      modifies this
      ensures Valid() && clientReads == old(clientReads)
      ensures proxyClosed == old(proxyClosed) && isOpened == old(isOpened)
      ensures ok ==> pending == ServerRead(BufferSize)
      ensures ok ==> clientOpen == old(clientOpen) && serverOpen == old(serverOpen)
      ensures !ok ==> pending == Idle && !clientOpen && !serverOpen
    {
      if ok {
        pending := ServerRead(BufferSize);
      } else {
        Shutdown();
      }
    }

    /** `handle_server_read_data`: on success or end of file exactly the bytes read are
        written to the client, and end of file marks the proxy closed; any other error
        shuts down. */
    method HandleServerReadData(outcome: ReadOutcome, data: seq<char>)
      requires Valid() && pending.ServerRead?
      requires |data| <= pending.cap
      modifies this, sbuffer
      ensures Valid() && clientReads == old(clientReads)
      ensures outcome != ReadError ==> sbuffer[..|data|] == data && pending == ClientWrite(data)
      ensures outcome != ReadError ==> proxyClosed == (outcome == ReadEof)
      ensures outcome != ReadError ==> clientOpen == old(clientOpen) && serverOpen == old(serverOpen)
      ensures isOpened == old(isOpened)
      ensures outcome == ReadError ==> pending == Idle && !clientOpen && !serverOpen
    {
      if outcome != ReadError {
        if outcome == ReadEof {
          proxyClosed := true;
        }
        forall i | 0 <= i < |data| {
          sbuffer[i] := data[i];
        }
        assert sbuffer[..|data|] == data;
        pending := ClientWrite(sbuffer[..|data|]);
      } else {
        Shutdown();
      }
    }

    /** `handle_client_write`: while the server has not closed, read it again, at most as
        many bytes as were just written. Once it has closed, the restart branch would need
        a persistent connection that is not closed, which cannot be: the connection goes
        quiet without closing its sockets. An error shuts down. */
    method HandleClientWrite(ok: bool)
      requires Valid() && pending.ClientWrite?
      modifies this
      ensures Valid() && clientReads == old(clientReads)
      ensures proxyClosed == old(proxyClosed) && isOpened == old(isOpened)
      ensures ok && !proxyClosed ==> pending == ServerRead(|old(pending.data)|)
      ensures ok && proxyClosed ==> pending == Idle && clientOpen == old(clientOpen) && serverOpen == old(serverOpen)
      ensures !ok ==> pending == Idle && !clientOpen && !serverOpen
    {
      if ok {
        if !proxyClosed {
          pending := ServerRead(|pending.data|);
        } else {
          if isPersistent && !proxyClosed {
            assert false;
          }
          pending := Idle;
        }
      } else {
        Shutdown();
      }
    }
  }

  /** A whole session: one request, one answer that ends with end of file. The connection
      ends quiet, with the client read only once and both sockets still open. */
  method OneExchange(request: seq<char>, answer: seq<char>) returns (c: TcpConnection)
    requires 1 <= |request| <= BufferSize && |answer| <= BufferSize
    ensures c.Valid() && c.pending == Idle && c.proxyClosed && c.isOpened
    ensures c.clientReads == 1 && c.clientOpen && c.serverOpen
    ensures c.cbuffer[..|request|] == request && c.sbuffer[..|answer|] == answer
  {
    c := new TcpConnection("192.0.2.1", 8080);
    c.Start();
    c.HandleClientReadData(true, request);
    c.HandleResolve(true, 1);
    c.HandleConnect(true);
    c.HandleServerWrite(true);
    c.HandleServerReadData(ReadEof, answer);
    c.HandleClientWrite(true);
  }

  /** A session whose first endpoint refuses: the retry reconnects, and the request is
      written on the server socket, which is open again. */
  method RetriedConnect(request: seq<char>) returns (c: TcpConnection)
    requires 1 <= |request| <= BufferSize
    ensures c.Valid() && c.isOpened && c.clientOpen && c.serverOpen
    ensures c.pending == ServerWrite(request)
  {
    c := new TcpConnection("192.0.2.1", 8080);
    c.Start();
    c.HandleClientReadData(true, request);
    c.HandleResolve(true, 2);
    c.HandleConnect(false);
    c.HandleConnect(true);
  }
}

/**
 * The in-process request/reply registry: a process-wide map from an
 * address to the server bound there. A server is modelled by its handler,
 * the function from request bytes to response bytes its background task
 * applies to every request.
 */
module Rpc {
  import opened Wrappers
  import opened Numeric

  type Handler = seq<byte> -> seq<byte>

  type Registry = map<string, Handler>

  /** `bind_server` on the registry: `None` when the address is already taken. */
  function Bound(m: Registry, addr: string, h: Handler): (r: Option<Registry>)
    ensures r.None? <==> addr in m
    ensures r.Some? ==> r.value.Keys == m.Keys + {addr}
  {
    if addr in m then None else Some(m[addr := h])
  }

  /** `unbind_server` on the registry: whether something was removed, and the registry after. */
  function Unbound(m: Registry, addr: string): (r: (bool, Registry))
    ensures r.0 <==> addr in m
    ensures r.1.Keys == m.Keys - {addr}
  {
    (addr in m, m - {addr})
  }

  /** `req_once` on the registry: the bound handler's answer. */
  function Answer(m: Registry, addr: string, payload: seq<byte>): (r: Result<seq<byte>, string>)
    ensures r.Err? <==> addr !in m
    ensures r.Err? ==> r.error == "no rpc server bound at " + addr
  {
    if addr in m then Ok(m[addr](payload)) else Err("no rpc server bound at " + addr)
  }

  /** A request to a freshly bound address is answered by its handler. */
  lemma BindThenRequest(m: Registry, addr: string, h: Handler, payload: seq<byte>)
    requires addr !in m
    ensures Answer(Bound(m, addr, h).value, addr, payload) == Ok(h(payload))
  {
  }

  /** Binding and unbinding one address leave every other address's server and answers unchanged. */
  lemma OthersUnaffected(m: Registry, addr: string, h: Handler, other: string, payload: seq<byte>)
    requires other != addr
    ensures Bound(m, addr, h).Some? ==> Answer(Bound(m, addr, h).value, other, payload) == Answer(m, other, payload)
    ensures Answer(Unbound(m, addr).1, other, payload) == Answer(m, other, payload)
  {
  }

  /** After an unbind, the address can be bound again, and an unbound address answers with an error. */
  lemma UnbindFrees(m: Registry, addr: string, h: Handler, payload: seq<byte>)
    ensures Bound(Unbound(m, addr).1, addr, h).Some?
    ensures Answer(Unbound(m, addr).1, addr, payload).Err?
  {
  }

  /** Binding an address twice fails the second time and keeps the first server. */
  lemma SecondBindFails(m: Registry, addr: string, h1: Handler, h2: Handler, payload: seq<byte>)
    requires addr !in m
    ensures Bound(Bound(m, addr, h1).value, addr, h2).None?
    ensures Answer(Bound(m, addr, h1).value, addr, payload) == Ok(h1(payload))
  {
  }

  class RpcRegistry {
    var servers: Registry

    constructor ()
      ensures servers == map[]
    {
      servers := map[];
    }

    /** `bind_server`: registers the handler, or fails with the registry unchanged. */
    method BindServer(addr: string, handler: Handler) returns (r: Result<(), string>)
      modifies this
      ensures r.Err? <==> addr in old(servers)
      ensures r.Err? ==> r.error == "address already bound: " + addr && servers == old(servers)
      ensures r.Ok? ==> servers == Bound(old(servers), addr, handler).value
    {
      if addr in servers {
        return Err("address already bound: " + addr);
      }
      servers := servers[addr := handler];
      return Ok(());
    }

    /** `unbind_server`: true iff a server was removed. */
    method UnbindServer(addr: string) returns (removed: bool)
      modifies this
      ensures (removed, servers) == Unbound(old(servers), addr)
    {
      removed := addr in servers;
      servers := servers - {addr};
    }

    /** `req_once`: looks the address up and hands the request to its server. */
    method ReqOnce(addr: string, payload: seq<byte>) returns (r: Result<seq<byte>, string>)
      ensures r == Answer(servers, addr, payload)
    {
      if addr !in servers {
        return Err("no rpc server bound at " + addr);
      }
      var handler := servers[addr];
      r := Ok(handler(payload));
    }
  }
}

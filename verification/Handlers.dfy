/** Routing one inbound message to its waiter (wsserver/handlers.py). */
module Handlers {
  import opened Registry
  import opened Wrappers
  import Wire

  /** The key a message from `node` answers: the name is the authenticated one, the id the message's. */
  function AnsweredKey(node: string, raw: Wire.Json): Option<Key> {
    if Wire.Answers(raw).None? then None else Some(Key(node, Wire.Answers(raw).value))
  }

  /** A routable message with a string id resolves the pending future under its key and takes the key
  away; everything else, and a second reply, is dropped without an effect. */
  method RouteInbound(registry: NodeRegistry<Wire.Json>, node: string, raw: Wire.Json)
    requires registry.Valid()
    modifies registry`waiters,
      set k | k in registry.waiters && AnsweredKey(node, raw) == Some(k) :: registry.waiters[k]
    ensures registry.Valid()
    ensures
      if raw.Obj? && Wire.Get(raw, "id").Str? && Wire.IsReply(raw, Wire.Get(raw, "id").s) then
        var key := Key(node, Wire.Get(raw, "id").s);
        && registry.waiters == old(registry.waiters) - {key}
        && (key in old(registry.waiters) ==>
              old(registry.waiters)[key].state
              == if old(registry.waiters[key].state).Pending? then FutureState.Result(raw)
                 else old(registry.waiters[key].state))
      else registry.waiters == old(registry.waiters)
    ensures
      forall k :: k in old(registry.waiters) && !(k.node == node && Wire.IsReply(raw, k.id)) ==>
        k in registry.waiters && registry.waiters[k] == old(registry.waiters)[k]
        && registry.waiters[k].state == old(registry.waiters[k].state)
  {
    if !raw.Obj? {
      return;
    }
    var msgType := Wire.Get(raw, "type");
    if !msgType.Str? || msgType.s !in Wire.ROUTABLE {
      return;
    }
    var id := Wire.Get(raw, "id");
    if !id.Str? || id.s == "" {
      return;
    }
    assert AnsweredKey(node, raw) == Some(Key(node, id.s));
    var _ := registry.CompleteWaiter(node, id.s, raw);
  }
}

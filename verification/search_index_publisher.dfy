/** internal/publisher/search_index_publisher.go: the search-sync publisher,
    which sets up its topology once and then publishes sync events. */
module SearchIndexPublisher {
  import opened Wrappers
  import opened Queue
  import Constants

  /** A JSON scalar held in the event's free-form data map. */
  datatype JsonValue = JString(s: string) | JNumber(n: int) | JBool(b: bool) | JNull

  datatype SearchSyncEvent = SearchSyncEvent(
    operation: string,
    kind: string,
    entityId: string,
    data: map<string, JsonValue>)

  /** The calls construction issues: a durable, not auto-deleted "direct"
      search exchange, then a durable, not auto-deleted queue for the sync
      routing key bound to that exchange. */
  function SetupCalls(declared: Result<AmqpQueue>): (cs: seq<Call>)
    ensures 2 <= |cs| <= 3
    ensures |cs| == 3 <==> declared.Ok? && Constants.SearchExchange != ""
    ensures cs[0] == ExchangeDeclare(Constants.SearchExchange, "direct", true, false, false, false)
    ensures cs[1] == QueueDeclare(Constants.SearchSyncRoutingKey, true, false, false, false)
    ensures declared.Ok? && Constants.SearchExchange != "" ==>
              cs[2..] == [QueueBind(declared.value.name, Constants.SearchSyncRoutingKey, Constants.SearchExchange, false)]
  {
    [ExchangeDeclare(Constants.SearchExchange, "direct", true, false, false, false)] +
    InitQueueCalls(Constants.SearchExchange, Constants.SearchSyncRoutingKey, true, false, declared)
  }

  class Publisher {
    const rmq: Channel

    /** NewSearchIndexPublisher: both setup calls are made and their errors
        dropped, so construction succeeds whatever the broker answers. */
    constructor (rmq: Channel, declareErr: Option<Error>, declared: Result<AmqpQueue>, bindErr: Option<Error>)
      requires rmq.Valid()
      modifies rmq
      ensures this.rmq == rmq && rmq.Valid()
      ensures rmq.calls == old(rmq.calls) + SetupCalls(declared)
    {
      this.rmq := rmq;
      new;
      var _ := rmq.RegisterExchange(Constants.SearchExchange, "direct", true, false, declareErr);
      var _, _ := rmq.InitQueue(Constants.SearchExchange, Constants.SearchSyncRoutingKey, true, false, declared, bindErr);
    }

    /** PublishSyncEvent: copies its arguments into a SearchSyncEvent, publishes
        it to the search exchange under the sync key, and returns
        PublishMessage's error unchanged. */
    method PublishSyncEvent(op: string, entityType: string, entityId: string, data: map<string, JsonValue>,
                            marshal: SearchSyncEvent -> Result<Bytes>, publishErr: Option<Error>)
      returns (err: Outcome)
      requires rmq.Valid()
      modifies rmq
      ensures rmq.Valid()
      ensures var event := SearchSyncEvent(op, entityType, entityId, data);
              && (marshal(event).Err? ==>
                    rmq.calls == old(rmq.calls) &&
                    err == Fail(Wrap("failed to marshal message body", marshal(event).error)))
              && (marshal(event).Ok? ==>
                    rmq.calls == old(rmq.calls) +
                      [Publish(Constants.SearchExchange, Constants.SearchSyncRoutingKey, false, false,
                               Publishing(ContentTypeJson, marshal(event).value, Persistent))] &&
                    err == (if publishErr.Some? then Fail(Wrap("failed to publish message", publishErr.value)) else Pass))
    {
      var event := SearchSyncEvent(op, entityType, entityId, data);
      err := rmq.PublishMessage(Constants.SearchExchange, Constants.SearchSyncRoutingKey, event, marshal, publishErr);
    }
  }
}

/** The broker channel wrapper of util/queue/rabbitmq.go, against an abstract
    AMQP channel. The channel's observable state is the log of the calls the
    wrapper issues on it, in order; whether the broker accepts a call is an
    input of that call. */
module Queue {
  import opened Wrappers

  type Bytes = seq<bv8>

  const ContentTypeJson := "application/json"

  /** amqp.Persistent, the delivery mode that survives a broker restart. */
  const Persistent: nat := 2

  /** amqp.Publishing: the message handed to the channel. */
  datatype Publishing = Publishing(contentType: string, body: Bytes, deliveryMode: nat)

  /** amqp.Queue as the broker reports it after a declaration. */
  datatype AmqpQueue = AmqpQueue(name: string, messages: int, consumers: int)

  /** The zero amqp.Queue{} returned with an error. */
  const ZeroQueue := AmqpQueue("", 0, 0)

  /** One call issued on the AMQP channel with the arguments passed (the nil
      argument tables are omitted). */
  datatype Call =
    | ExchangeDeclare(name: string, kind: string, durable: bool, autoDelete: bool, internal: bool, noWait: bool)
    | QueueDeclare(name: string, durable: bool, autoDelete: bool, exclusive: bool, noWait: bool)
    | QueueBind(queue: string, key: string, exchange: string, noWait: bool)
    | Publish(exchange: string, key: string, mandatory: bool, immediate: bool, msg: Publishing)

  /** The publish convention: JSON content, persistent delivery, neither
      mandatory nor immediate. */
  predicate IsJsonPersistent(c: Call)
  {
    c.Publish? ==>
      !c.mandatory && !c.immediate &&
      c.msg.contentType == ContentTypeJson && c.msg.deliveryMode == Persistent
  }

  /** The calls a successful or failed InitQueue issues: the declaration of a
      queue named after the routing key, then a bind of the declared queue
      under that key when the declaration succeeded and an exchange is named. */
  function InitQueueCalls(exchangeName: string, routingKey: string, durable: bool, autoDelete: bool,
                          declared: Result<AmqpQueue>): (cs: seq<Call>)
    ensures 1 <= |cs| <= 2
    ensures cs[0] == QueueDeclare(routingKey, durable, autoDelete, false, false)
    ensures |cs| == 2 <==> declared.Ok? && exchangeName != ""
    ensures |cs| == 2 ==> cs[1] == QueueBind(declared.value.name, routingKey, exchangeName, false)
  {
    [QueueDeclare(routingKey, durable, autoDelete, false, false)] +
    if declared.Ok? && exchangeName != "" then [QueueBind(declared.value.name, routingKey, exchangeName, false)] else []
  }

  /** The calls PublishMessage issues: one persistent JSON publish of the
      marshalled body, or none when marshalling fails. */
  function PublishCalls<B>(exchangeName: string, routingKey: string, body: B, marshal: B -> Result<Bytes>): (cs: seq<Call>)
    ensures |cs| <= 1
    ensures |cs| == 1 <==> marshal(body).Ok?
    ensures forall i :: 0 <= i < |cs| ==>
              IsJsonPersistent(cs[i]) && cs[i].Publish? &&
              cs[i].exchange == exchangeName && cs[i].key == routingKey && cs[i].msg.body == marshal(body).value
  {
    if marshal(body).Err? then []
    else [Publish(exchangeName, routingKey, false, false, Publishing(ContentTypeJson, marshal(body).value, Persistent))]
  }

  /** What PublishMessage returns: the marshal error, else the broker's
      refusal, each wrapped, else nil. */
  function PublishResult<B>(body: B, marshal: B -> Result<Bytes>, publishErr: Option<Error>): (r: Outcome)
    ensures r.Pass? <==> marshal(body).Ok? && publishErr.None?
  {
    if marshal(body).Err? then Fail(Wrap("failed to marshal message body", marshal(body).error))
    else if publishErr.Some? then Fail(Wrap("failed to publish message", publishErr.value))
    else Pass
  }

  class Channel {
    /** Every call issued on the channel so far, oldest first. */
    var calls: seq<Call>

    /** Every publish on this channel follows the JSON/persistent convention. */
    ghost predicate Valid()
      reads this
    {
      forall i :: 0 <= i < |calls| ==> IsJsonPersistent(calls[i])
    }

    constructor ()
      ensures Valid() && calls == []
    {
      calls := [];
    }

    /** RegisterExchange: declares the exchange with internal = noWait = false
        and wraps the broker's refusal. */
    method RegisterExchange(exchangeName: string, exchangeType: string, durable: bool, autoDelete: bool,
                            declareErr: Option<Error>) returns (err: Outcome)
      requires Valid()
      modifies this
      ensures Valid()
      ensures calls == old(calls) + [ExchangeDeclare(exchangeName, exchangeType, durable, autoDelete, false, false)]
      ensures declareErr.None? ==> err == Pass
      ensures declareErr.Some? ==> err == Fail(Wrap("Failed to declare exchange", declareErr.value))
    {
      calls := calls + [ExchangeDeclare(exchangeName, exchangeType, durable, autoDelete, false, false)];
      if declareErr.Some? {
        return Fail(Wrap("Failed to declare exchange", declareErr.value));
      }
      return Pass;
    }

    /** InitQueue: declares a non-exclusive queue named exactly the routing key;
        binds it only when an exchange is named and the declaration succeeded;
        returns the zero queue with any error. `declared` is the broker's answer
        to the declaration and `bindErr` its answer to the bind. */
    method InitQueue(exchangeName: string, routingKey: string, durable: bool, autoDelete: bool,
                     declared: Result<AmqpQueue>, bindErr: Option<Error>) returns (q: AmqpQueue, err: Outcome)
      requires Valid()
      modifies this
      ensures Valid()
      ensures calls == old(calls) + InitQueueCalls(exchangeName, routingKey, durable, autoDelete, declared)
      ensures declared.Err? ==> q == ZeroQueue && err == Fail(Wrap("failed to declare queue", declared.error))
      ensures declared.Ok? && exchangeName != "" && bindErr.Some? ==>
                q == ZeroQueue && err == Fail(Wrap("failed to bind queue", bindErr.value))
      ensures declared.Ok? && (exchangeName == "" || bindErr.None?) ==> q == declared.value && err == Pass
    {
      calls := calls + [QueueDeclare(routingKey, durable, autoDelete, false, false)];
      if declared.Err? {
        return ZeroQueue, Fail(Wrap("failed to declare queue", declared.error));
      }
      q := declared.value;
      if exchangeName != "" {
        calls := calls + [QueueBind(q.name, routingKey, exchangeName, false)];
        if bindErr.Some? {
          return ZeroQueue, Fail(Wrap("failed to bind queue", bindErr.value));
        }
      }
      err := Pass;
    }

    /** PublishMessage: marshals the body (`marshal` stands for json.Marshal);
        a marshal failure returns before anything reaches the channel; otherwise
        one persistent JSON publish carries the marshalled bytes, and the
        broker's refusal (`publishErr`) is wrapped. */
    method PublishMessage<B>(exchangeName: string, routingKey: string, body: B,
                             marshal: B -> Result<Bytes>, publishErr: Option<Error>) returns (err: Outcome)
      requires Valid()
      modifies this
      ensures Valid()
      ensures marshal(body).Err? ==>
                calls == old(calls) && err == Fail(Wrap("failed to marshal message body", marshal(body).error))
      ensures marshal(body).Ok? ==>
                calls == old(calls) + [Publish(exchangeName, routingKey, false, false,
                                               Publishing(ContentTypeJson, marshal(body).value, Persistent))]
      ensures marshal(body).Ok? && publishErr.None? ==> err == Pass
      ensures marshal(body).Ok? && publishErr.Some? ==> err == Fail(Wrap("failed to publish message", publishErr.value))
      ensures calls == old(calls) + PublishCalls(exchangeName, routingKey, body, marshal)
      ensures err == PublishResult(body, marshal, publishErr)
    {
      var payload := marshal(body);
      if payload.Err? {
        return Fail(Wrap("failed to marshal message body", payload.error));
      }
      calls := calls + [Publish(exchangeName, routingKey, false, false,
                                Publishing(ContentTypeJson, payload.value, Persistent))];
      if publishErr.Some? {
        return Fail(Wrap("failed to publish message", publishErr.value));
      }
      return Pass;
    }
  }
}

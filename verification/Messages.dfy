// internal/core/message: the broker's message and its states.

module Messages {
  import opened Options

  type Byte = b: int | 0 <= b < 256

  datatype Status = Pending | Delivered | Acknowledged | Failed | Expired | DLQ
  datatype Priority = Low | Normal | High | Critical
  datatype DeliveryMode = AtMostOnce | AtLeastOnce | ExactlyOnce

  type Headers = map<string, string>

  // Times are nanoseconds; a nil header map and an empty one are the same value.
  datatype Message = Message(
    id: string, topic: string, partition: int, offset: int, key: seq<Byte>, payload: seq<Byte>,
    headers: Headers, priority: Priority, deliveryMode: DeliveryMode, status: Status,
    retryCount: int, maxRetries: int, consumerGroup: string, consumerID: string,
    createdAt: int, expiresAt: Option<int>, deliveredAt: Option<int>, ackedAt: Option<int>,
    compressed: bool, compressionType: string)
}

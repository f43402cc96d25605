/** The records shared by the relay service, its store, its cache and its sender. */
module RelayTypes {

  datatype Option<+T> = None | Some(value: T)

  /** A Go `(T, error)` pair: exactly one side is meaningful. */
  datatype Result<+T> = Ok(value: T) | Err(error: Error)

  datatype Error =
    | NoRows              // pgx.ErrNoRows, as the driver reports an empty result
    | RelayNotFound
    | RelayExpired
    | BatchNotCollecting
    | BatchItemLimit
    | UniqueViolation     // a UNIQUE key of the schema refuses the row
    | ForeignKeyViolation // a REFERENCES clause of the schema refuses the row
    | GroupFragmented
    | PageOutOfRange
    | UnsupportedMedia
    | InvalidCode
    | SendFailed          // the Bot API answered with an error
    | SendUnknown         // a timeout: the message may or may not have been sent
    | SourceExhausted     // the random source reported an error
    | CommandFailed       // any other failure of the store, the cache, a check or a limiter
    | TooManyRelays
    | SessionActive       // ErrBatchSessionActive
    | SessionNotFound     // ErrBatchSessionNotFound
    | SessionEmpty        // ErrBatchSessionEmpty
    | ItemsMissing

  /** Ticks of one clock; only comparisons and differences are used. */
  type Time = int

  datatype RelayStatus = Collecting | Ready | Expired

  datatype MediaKind = Document | Photo | Video | Audio | Voice | Other(name: string)

  /** One row of `relays`. SQL NULL is `None`. */
  datatype Relay = Relay(
    id: int,
    sourceUpdateId: Option<int>,
    codeValue: string,
    codeHash: Option<string>,
    status: RelayStatus,
    uploaderUserId: int,
    uploaderChatId: int,
    deliveryCount: int,
    expiresAt: Time,
    createdAt: Time,
    updatedAt: Time)

  /** What an upload says about one file. */
  datatype Upload = Upload(
    sourceUpdateId: int,
    mediaGroupId: string,
    mediaKind: MediaKind,
    fileId: string)

  /** One row of `relay_items`. */
  datatype RelayItem = RelayItem(
    id: int,
    relayId: int,
    sourceUpdateId: int,
    mediaGroupId: string,
    itemOrder: int,
    mediaKind: MediaKind,
    fileId: string,
    createdAt: Time)

  datatype DeliveryStatus = Pending | Sent | Failed | Unknown

  /** One row of `relay_deliveries`. */
  datatype Delivery = Delivery(
    id: int,
    relayId: int,
    requestUpdateId: int,
    status: DeliveryStatus,
    createdAt: Time,
    updatedAt: Time)

  /** The batch upload session kept in the cache; 0 is Go's zero value for every field. */
  datatype Session = Session(
    relayId: int,
    uploaderUserId: int,
    uploaderChatId: int,
    itemCount: int,
    progressMessageId: int,
    lastProgressNotifiedAt: Time,
    lastProgressNotifiedCount: int,
    startedAt: Time,
    lastActivityAt: Time)
}

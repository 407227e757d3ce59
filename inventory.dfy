/** Option and Result, the two failure-carrying wrappers the model uses. */
module Wrappers {

  /** A Go value that may be nil: `None` stands for nil. */
  datatype Option<+T> = None | Some(value: T)

  /** A Go `(value, error)` pair where only one side matters. */
  datatype Result<+T, +E> = Ok(value: T) | Err(error: E)
}

/** The entities that the listing pipeline passes around, and the calls into
    packages this model does not contain, given as uninterpreted oracles. */
module Inventory {
  import opened Wrappers

  /** (profile, region): identifies one cloud client and the provider paired with it. */
  datatype ClientKey = ClientKey(profile: string, region: string)

  /** A creation time already rendered with the layout "2006-01-02 15:04:05".
      The layout always prints its separators, so the text is never empty. */
  type Timestamp = s: string | s != "" witness "1970-01-01 00:00:00"

  /** One live cloud resource as the listing returns it; `state` holds the
      attribute values that hydration may fill in. */
  datatype Resource = Resource(rtype: string, id: string, createdAt: Option<Timestamp>, state: map<string, string>)

  /** What the provider's schema query returns: Go returns the map and the
      error together, and the caller assigns the map before it looks at the error. */
  datatype AttrCheck = AttrCheck(support: map<string, bool>, err: Option<string>)

  /** Reads one attribute's value as text from a (possibly hydrated) resource. */
  type Extractor = (string, Resource) -> Result<string, string>

  /** The external calls the pipeline makes once the pools exist.
      - matchSupportedTypes: glob pattern to matched resource types, or an invalid-pattern error
      - setAccountID: client key and resource type to an error, or None on success
      - listResourcesByType: client key and resource type to the listed resources, or an error
      - hasAttributes: requested attributes, resource type and the key of the provider to ask
      - getStates: hydrates a list of resources through the provider pool
      - getAttribute: extracts one attribute of one resource */
  datatype Oracles = Oracles(
    matchSupportedTypes: string -> Result<seq<string>, string>,
    setAccountID: (ClientKey, string) -> Option<string>,
    listResourcesByType: (ClientKey, string) -> Result<seq<Resource>, string>,
    hasAttributes: (seq<string>, string, ClientKey) -> AttrCheck,
    getStates: seq<Resource> -> seq<Resource>,
    getAttribute: Extractor)
}

/** Structured outgoing payloads (asynctelebot/entity.py): each kind declares
    a fixed list of slots; the constructor keeps only keyword arguments that
    name a slot, and `to_dict` lists the slots that were set. */
module Entities {
  import opened Values

  /** `File(name, data, mime)`: an attachment as the ordered triple the
      multipart producer indexes as filename, stream and MIME type. The
      stream is modelled by the bytes it yields. */
  datatype FileTriple = File(name: string, data: seq<byte>, mime: string)

  /** One entity field: an attachment (an instance of `File`) or any other value. */
  datatype Field = Plain(v: Value) | Attachment(file: FileTriple)

  datatype Kind = Photo | Audio | Document | Sticker | Video | Voice | Location | Venue | Contact

  /** The class's `__slots__`. */
  function Slots(k: Kind): seq<string> {
    match k
    case Photo => ["photo", "caption"]
    case Audio => ["audio", "caption", "duration", "performer", "title"]
    case Document => ["document", "caption"]
    case Sticker => ["sticker"]
    case Video => ["video", "duration", "width", "height", "caption"]
    case Voice => ["voice", "caption", "duration"]
    case Location => ["latitude", "longitude"]
    case Venue => ["latitude", "longitude", "title", "address", "foursquare_id"]
    case Contact => ["phone_number", "first_name", "last_name"]
  }

  /** The class's `__files__`, declared on two kinds and read by nothing:
      whether a field is sent as an attachment depends only on its value. */
  function DeclaredFiles(k: Kind): seq<string> {
    match k
    case Document => ["document"]
    case Video => ["video"]
    case _ => []
  }

  /** `message.__class__.__name__`. */
  function ClassName(k: Kind): string {
    match k
    case Photo => "Photo"
    case Audio => "Audio"
    case Document => "Document"
    case Sticker => "Sticker"
    case Video => "Video"
    case Voice => "Voice"
    case Location => "Location"
    case Venue => "Venue"
    case Contact => "Contact"
  }

  /** An entity instance: its class and the slot attributes that are set. */
  datatype Entity = Entity(kind: Kind, attrs: map<string, Field>)

  /** Every attribute of an entity is one of its class's slots. */
  predicate Valid(e: Entity) {
    forall a :: a in e.attrs ==> a in Slots(e.kind)
  }

  /** The loop shared by `Entity.__init__` and `to_dict`: for each slot, in
      order, keep the entry of that name if there is one (a keyword argument
      given, or an attribute set). */
  function SlotFilter(slots: seq<string>, m: map<string, Field>): (r: map<string, Field>)
    ensures forall a :: a in r <==> a in slots && a in m
    ensures forall a :: a in r ==> r[a] == m[a]
  {
    if slots == [] then map[]
    else
      var rest := SlotFilter(slots[1..], m);
      if slots[0] in m then rest[slots[0] := m[slots[0]]] else rest
  }

  /** `Kind(**kwargs)`. */
  function Construct(k: Kind, kwargs: map<string, Field>): (e: Entity)
    ensures e.kind == k && Valid(e)
  {
    Entity(k, SlotFilter(Slots(k), kwargs))
  }

  function ToDict(e: Entity): map<string, Field> {
    SlotFilter(Slots(e.kind), e.attrs)
  }

  /** `to_dict` of a constructed entity is the keyword arguments restricted
      to the slots, values unchanged; other keyword arguments are dropped. */
  lemma RoundTrip(k: Kind, kwargs: map<string, Field>)
    ensures ToDict(Construct(k, kwargs)) == map a | a in kwargs && a in Slots(k) :: kwargs[a]
  {
  }

  /** `to_dict` keys are slots, and are exactly the slots that are set. */
  lemma ToDictKeys(e: Entity)
    ensures forall a :: a in ToDict(e) ==> a in Slots(e.kind)
    ensures Valid(e) ==> ToDict(e) == e.attrs
  {
  }

  /** `Kind()` with no arguments has an empty `to_dict`. */
  lemma EmptyEntity(k: Kind)
    ensures ToDict(Construct(k, map[])) == map[]
  {
  }

  /** No kind declares a slot named `chat_id` or `reply_markup`, so an
      entity's fields never collide with the parameters the sender adds. */
  lemma NoReservedSlot(k: Kind)
    ensures "chat_id" !in Slots(k) && "reply_markup" !in Slots(k)
  {
  }
}

/** The part of an object store the publisher relies on: a HEAD object replaced only by
    compare-and-swap on its object generation, and create-only image objects. */
module ObjectStore {
  import opened Common

  /** An index image, up to checksum collisions: its length and its checksum. */
  datatype Image = Image(len: nat, sum: nat)

  /** What HEAD records: publish generation (1 for the first), length and checksum. */
  datatype Head = Head(generation: nat, len: nat, sum: nat)

  /** A HEAD object: the store's generation of the object, and its body. */
  datatype Seen = Seen(headGen: nat, head: Head)

  datatype Store = Store(head: Option<Seen>, images: map<nat, Image>, clock: nat)

  function ImageOf(head: Head): Image { Image(head.len, head.sum) }

  function HeadFor(generation: nat, image: Image): Head { Head(generation, image.len, image.sum) }

  /** The generation a publisher that last saw `prev` uploads under. */
  function NextGeneration(prev: Option<Seen>): nat {
    if prev.Some? then prev.value.head.generation + 1 else 1
  }

  predicate Names(prev: Option<Seen>, image: Image) {
    prev.Some? && ImageOf(prev.value.head) == image
  }

  /** Create-only: an existing object is accepted only if it is equal. */
  predicate PutAccepted(st: Store, g: nat, image: Image) {
    g in st.images ==> st.images[g] == image
  }

  function Put(st: Store, g: nat, image: Image): Store {
    if g in st.images then st else st.(images := st.images[g := image])
  }

  predicate CasMatches(st: Store, expected: Option<nat>) {
    match expected
    case None => st.head.None?
    case Some(e) => st.head.Some? && st.head.value.headGen == e
  }

  /** A matching swap gets a fresh object generation; any other leaves the store alone. */
  function Cas(st: Store, expected: Option<nat>, head: Head): Store {
    if CasMatches(st, expected) then st.(head := Some(Seen(st.clock + 1, head)), clock := st.clock + 1) else st
  }

  function Delete(st: Store, g: nat): Store {
    st.(images := st.images - {g})
  }

  /** A fetch is checked against the length and checksum HEAD recorded. */
  function Fetch(st: Store, head: Head): Option<Image> {
    if head.generation in st.images && st.images[head.generation] == ImageOf(head)
    then Some(st.images[head.generation]) else None
  }

  function ExpectedGen(prev: Option<Seen>): Option<nat> {
    if prev.Some? then Some(prev.value.headGen) else None
  }
}

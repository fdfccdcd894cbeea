/** Values that travel between the two clients and the chat server.
    Text is modelled as its UTF-8 byte string, so a length is a byte count. */
module Messages {

  datatype Option<+T> = None | Some(value: T)

  /** The identity of a text message: UNIQUE(sender, msgid) in both databases. */
  datatype Key = Key(sender: int, id: string)

  /** One element of a frame's `text_array`. */
  datatype Text = Text(id: string, content: string)

  const MAX_TEXTS_PER_FRAME := 50
  const MAX_ID_BYTES := 128
  const MAX_CONTENT_BYTES := 2048

  predicate WellSized(text: Text) {
    && 0 < |text.id| <= MAX_ID_BYTES
    && 0 < |text.content| <= MAX_CONTENT_BYTES
  }

  predicate AllWellSized(texts: seq<Text>) {
    forall t :: t in texts ==> WellSized(t)
  }

  function KeysOf(sender: int, texts: seq<Text>): set<Key> {
    set t | t in texts :: Key(sender, t.id)
  }

  lemma BatchKeys(sender: int, texts: seq<Text>, text: Text)
    ensures KeysOf(sender, texts + [text]) == KeysOf(sender, texts) + {Key(sender, text.id)}
  {
    forall k | k in KeysOf(sender, texts) ensures k in KeysOf(sender, texts + [text]) {
      var t :| t in texts && k == Key(sender, t.id);
      assert t in texts + [text];
    }
  }

  /** Inside one batch an id never stands for two contents. */
  ghost predicate SelfConsistent(texts: seq<Text>) {
    forall t, u :: t in texts && u in texts && t.id == u.id ==> t == u
  }

  function Elements<T>(page: seq<T>): set<T> {
    set k | k in page
  }

  lemma {:induction false} DistinctElements<T>(page: seq<T>)
    requires forall i, j :: 0 <= i < j < |page| ==> page[i] != page[j]
    ensures |Elements(page)| == |page|
  {
    if page != [] {
      var rest := page[..|page| - 1];
      DistinctElements(rest);
      assert page == rest + [page[|page| - 1]];
      assert Elements(page) == Elements(rest) + {page[|page| - 1]};
    }
  }

  function Min(a: int, b: int): int {
    if a < b then a else b
  }

  lemma SliceOfSlice<T>(s: seq<T>, lo: nat, hi: nat, a: nat, b: nat)
    requires lo <= hi <= |s| && a <= b <= hi - lo
    ensures s[lo..hi][a..b] == s[lo + a..lo + b]
  {
    forall i | 0 <= i < b - a ensures s[lo..hi][a..b][i] == s[lo + a..lo + b][i] {}
  }
}

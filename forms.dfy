/** Multipart request bodies (`FormData`) as ordered lists of named entries. */
module Forms {

  /** A file picked in a file input; only its identity matters here. */
  datatype UploadedFile = UploadedFile(name: string)

  /** `FormData.append` takes a string or a file. */
  datatype FieldValue = TextValue(text: string) | FileValue(file: UploadedFile)

  datatype Entry = Entry(name: string, value: FieldValue)

  function Names(entries: seq<Entry>): (r: seq<string>)
    ensures |r| == |entries| && forall i :: 0 <= i < |entries| ==> r[i] == entries[i].name
  {
    seq(|entries|, i requires 0 <= i < |entries| => entries[i].name)
  }

  /** No entry of `es` is named `n`. */
  predicate NoneNamed(es: seq<Entry>, n: string) {
    forall k :: 0 <= k < |es| ==> es[k].name != n
  }

  lemma NoneNamedConcat(a: seq<Entry>, b: seq<Entry>, n: string)
    requires NoneNamed(a, n) && NoneNamed(b, n)
    ensures NoneNamed(a + b, n)
  {
  }
}

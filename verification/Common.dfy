/** Vocabulary shared by the code-generator modules. */
module Common {

  datatype Option<+T> = None | Some(value: T)

  /** An untyped machine word: the model does not distinguish integer and pointer types. */
  type Word = int

  /** The name of a CFG variable or code label. */
  type LVar = nat

  /** The contents of the heap; only the primitives of a run give it meaning. */
  type Mem = map<int, int>

  ghost predicate NoDup<T>(s: seq<T>) {
    forall i, j :: 0 <= i < j < |s| ==> s[i] != s[j]
  }
}

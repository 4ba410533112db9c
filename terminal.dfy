/** The operator at the terminal and the local disk. What the operator will
    type or pick is fixed in advance as a queue of answers; the files the tool
    writes are kept as a map from file name to lines. */
module Terminal {
  import opened Wrappers

  /** `rest` is what is left of `script` once some answers were taken. */
  predicate Remaining(script: seq<string>, rest: seq<string>)
  {
    |rest| <= |script| && rest == script[|script| - |rest|..]
  }

  lemma RemainingTrans(a: seq<string>, b: seq<string>, c: seq<string>)
    requires Remaining(a, b) && Remaining(b, c)
    ensures Remaining(a, c)
  {
    assert a[|a| - |c|..] == a[|a| - |b|..][|b| - |c|..];
  }

  class Console {
    var answers: seq<string>
    var written: map<string, seq<string>>

    constructor (script: seq<string>)
      ensures answers == script && written == map[]
    {
      answers := script;
      written := map[];
    }

    /** `input(...)` or a `questionary.text` prompt: the next answer, or none
        when the operator has nothing more to give. */
    method Input() returns (r: Option<string>)
      modifies this`answers
      ensures old(answers) == [] ==> r == None && answers == []
      ensures old(answers) != [] ==> r == Some(old(answers)[0]) && answers == old(answers)[1..]
    {
      if answers == [] {
        r := None;
      } else {
        r := Some(answers[0]);
        answers := answers[1..];
      }
    }

    /** A `questionary.select` prompt: the next answer, provided it is one of
        the offered choices; anything else stands for an interrupted prompt. */
    method Select(choices: seq<string>) returns (r: Option<string>)
      modifies this`answers
      ensures old(answers) == [] ==> r == None && answers == []
      ensures old(answers) != [] ==> answers == old(answers)[1..]
      ensures old(answers) != [] ==>
        r == if old(answers)[0] in choices then Some(old(answers)[0]) else None
    {
      if answers == [] {
        r := None;
      } else {
        r := if answers[0] in choices then Some(answers[0]) else None;
        answers := answers[1..];
      }
    }

    /** `open(name, 'w')` followed by one `write` per line. */
    method Write(name: string, lines: seq<string>)
      modifies this`written
      ensures written == old(written)[name := lines]
    {
      written := written[name := lines];
    }
  }
}

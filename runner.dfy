/** The three code runners around the judge: each call draws a fresh
    submission id, stages the source in a local temporary directory, copies
    it into the language's worker container, compiles (or syntax-checks) it,
    runs the cases and removes its workspace.

    The file system of the server and of the container are modelled only by
    the set of names that exist in each; `uuid()` is a supply of fresh
    tokens. The judge itself lives in module Judge. */
module Runner {
  import opened Wrappers
  import opened Text
  import opened Judge

  /** The source of submission ids: every id it hands out is new. */
  class TokenSupply {
    var next: nat
    ghost var issued: set<nat>

    ghost predicate Valid()
      reads this
    {
      forall t :: t in issued ==> t < next
    }

    constructor ()
      ensures Valid() && issued == {}
    {
      next := 0;
      issued := {};
    }

    method Fresh() returns (t: nat)
      requires Valid()
      modifies this
      ensures Valid()
      ensures t !in old(issued) && issued == old(issued) + {t}
    {
      t := next;
      next := next + 1;
      issued := issued + {t};
    }
  }

  // ----- the workspace of one submission -----

  /** The file written to the server's temporary directory. */
  function LocalName(lang: Language, id: nat): string {
    var d := DecimalString(id);
    match lang
    case Cpp => "src_" + d + ".cpp"
    case Java => "Main_" + d + ".java"
    case Python => "script_" + d + ".py"
  }

  /** The entry at the container's root that holds the source: the C++ and
      Python source files, or the Java job folder (holding `Main.java`). */
  function SourceEntry(lang: Language, id: nat): string {
    var d := DecimalString(id);
    match lang
    case Cpp => "/src_" + d + ".cpp"
    case Java => "/job_" + d
    case Python => "/script_" + d + ".py"
  }

  /** The end of a bytecode cache file's name: the interpreter's tag
      (`cpython-311` for CPython 3.11) and the extension; the model fixes
      one interpreter. */
  const PycSuffix: string := ".cpython-311.pyc"

  /** The bytecode file `python3 -m py_compile /script_<id>.py` writes
      when the syntax check passes. */
  function PycName(id: nat): string {
    "/__pycache__/script_" + DecimalString(id) + PycSuffix
  }

  /** What a successful compile adds to the container: the C++ binary at
      the root, or Python's bytecode file under `__pycache__`. `javac`
      writes its class file inside the job folder. */
  function BuildEntries(lang: Language, id: nat): set<string> {
    match lang
    case Cpp => {"/bin_" + DecimalString(id)}
    case Java => {}
    case Python => {PycName(id)}
  }

  /** Every container entry of a submission's workspace. */
  function Entries(lang: Language, id: nat): set<string> {
    {SourceEntry(lang, id)} + BuildEntries(lang, id)
  }

  /** What the cleanup after the cases removes: the source entry and, for
      C++, the binary. */
  function Cleaned(lang: Language, id: nat): set<string> {
    {SourceEntry(lang, id)} + (if lang == Cpp then {"/bin_" + DecimalString(id)} else {})
  }

  /** What a clean compile leaves in the container after the cleanup:
      Python's bytecode file, and nothing for C++ and Java. */
  function Residue(lang: Language, id: nat): (r: set<string>)
    ensures r <= Entries(lang, id) && r !! Cleaned(lang, id)
    ensures r == {} <==> lang != Python
    ensures Entries(lang, id) - Cleaned(lang, id) == r
  {
    if lang == Python then
      PycApart(id, id);
      {PycName(id)}
    else {}
  }

  /** Removing the cleaned entries from a container that holds the whole
      workspace leaves what was there before, less the workspace, plus the
      residue. */
  lemma CleanupLeaves(lang: Language, id: nat, before: set<string>)
    ensures (before + Entries(lang, id)) - Cleaned(lang, id) == (before - Entries(lang, id)) + Residue(lang, id)
  {
  }

  /** Strings with the same prefix and suffix are equal when the whole are. */
  lemma Infix(p: string, a: string, b: string, q: string)
    requires p + a + q == p + b + q
    ensures a == b
  {
    var s := p + a + q;
    assert |a| == |b|;
    assert a == s[|p|..|p| + |a|];
    assert b == (p + b + q)[|p|..|p| + |b|];
  }

  lemma Prefixed(p: string, a: string, b: string)
    requires p + a == p + b
    ensures a == b
  {
    Infix(p, a, b, []);
    assert p + a + [] == p + a && p + b + [] == p + b;
  }

  /** Distinct ids give disjoint workspaces: the local files differ and no
      container entry of one submission is an entry of the other. */
  lemma WorkspacesDisjoint(lang: Language, a: nat, b: nat)
    requires a != b
    ensures LocalName(lang, a) != LocalName(lang, b)
    ensures Entries(lang, a) !! Entries(lang, b)
  {
    DecimalStringInjective(a, b);
    match lang {
      case Cpp => CppDisjoint(DecimalString(a), DecimalString(b));
      case Java =>
        var da, db := DecimalString(a), DecimalString(b);
        if LocalName(lang, a) == LocalName(lang, b) { Infix("Main_", da, db, ".java"); }
        if SourceEntry(lang, a) == SourceEntry(lang, b) { Prefixed("/job_", da, db); }
      case Python => PythonDisjoint(a, b);
    }
  }

  lemma CppDisjoint(da: string, db: string)
    requires da != db
    ensures "src_" + da + ".cpp" != "src_" + db + ".cpp"
    ensures {"/src_" + da + ".cpp", "/bin_" + da} !! {"/src_" + db + ".cpp", "/bin_" + db}
  {
    if "src_" + da + ".cpp" == "src_" + db + ".cpp" { Infix("src_", da, db, ".cpp"); }
    if "/src_" + da + ".cpp" == "/src_" + db + ".cpp" { Infix("/src_", da, db, ".cpp"); }
    if "/bin_" + da == "/bin_" + db { Prefixed("/bin_", da, db); }
    assert ("/src_" + da + ".cpp")[1] != ("/bin_" + db)[1];
    assert ("/bin_" + da)[1] != ("/src_" + db + ".cpp")[1];
  }

  lemma PythonDisjoint(a: nat, b: nat)
    requires DecimalString(a) != DecimalString(b)
    ensures LocalName(Python, a) != LocalName(Python, b)
    ensures Entries(Python, a) !! Entries(Python, b)
  {
    var da, db := DecimalString(a), DecimalString(b);
    if LocalName(Python, a) == LocalName(Python, b) { Infix("script_", da, db, ".py"); }
    if SourceEntry(Python, a) == SourceEntry(Python, b) { Infix("/script_", da, db, ".py"); }
    PycDiffer(da, db, PycSuffix);
    PycApart(a, b);
    PycApart(b, a);
  }

  lemma PycDiffer(da: string, db: string, tail: string)
    requires da != db
    ensures "/__pycache__/script_" + da + tail != "/__pycache__/script_" + db + tail
  {
    if "/__pycache__/script_" + da + tail == "/__pycache__/script_" + db + tail {
      Infix("/__pycache__/script_", da, db, tail);
    }
  }

  /** A bytecode file is never a submission's source file. */
  lemma PycApart(a: nat, b: nat)
    ensures PycName(a) != SourceEntry(Python, b)
  {
    assert PycName(a)[1] == '_';
    assert SourceEntry(Python, b)[1] == 's';
  }

  // ----- one evaluation -----

  /** The server's temporary directory, the worker container's root and the
      positions of every case run so far, in order. */
  class Worker {
    var local: set<string>
    var remote: set<string>
    var runs: seq<nat>

    constructor ()
      ensures local == {} && remote == {} && runs == []
    {
      local, remote, runs := {}, {}, [];
    }

    /** One runner call. `writeErr` and `copyErr` are the exceptions the
        local write and the `docker cp` may throw, `compile` is the outcome
        of the compile (or syntax-check) command and `run(i)` that of case
        `i`. An exception gives a "System Error" record and skips every
        cleanup; a failed compile removes only the copied source; otherwise
        every case runs and the cleanup removes the workspace except its
        Residue, the Python bytecode file. */
    method Evaluate(supply: TokenSupply, lang: Language, cases: seq<TestCase>,
                    writeErr: Option<string>, copyErr: Option<string>,
                    compile: CmdResult, run: nat -> CmdResult)
      returns (r: Report, id: nat)
      requires supply.Valid()
      modifies this, supply
      ensures supply.Valid() && id !in old(supply.issued) && supply.issued == old(supply.issued) + {id}
      ensures writeErr.Some? ==>
        r == Failed(writeErr.value) && local == old(local) && remote == old(remote) && runs == old(runs)
      ensures writeErr.None? && copyErr.Some? ==>
        && r == Failed(copyErr.value)
        && local == old(local) + {LocalName(lang, id)}
        && remote == old(remote) + (if lang == Java then {SourceEntry(lang, id)} else {})
        && runs == old(runs)
      ensures writeErr.None? && copyErr.None? ==> r == Evaluation(lang, cases, compile, run)
      ensures writeErr.None? && copyErr.None? && compile.code != 0 ==>
        && local == old(local) + {LocalName(lang, id)}
        && remote == old(remote) - {SourceEntry(lang, id)}
        && runs == old(runs)
      ensures writeErr.None? && copyErr.None? && compile.code == 0 ==>
        && local == old(local) - {LocalName(lang, id)}
        && remote == (old(remote) - Entries(lang, id)) + Residue(lang, id)
        && runs == old(runs) + Indices(|cases|)
    {
      id := supply.Fresh();
      var failure := Stage(lang, id, writeErr, copyErr);
      if failure.Some? {
        return Failed(failure.value), id;
      }
      var source := SourceEntry(lang, id);
      if compile.code != 0 {
        remote := remote - {source};
        return Judged(CompileFailureVerdict(lang), 0, |cases|, 0, Some(Trim(compile.stderr))), id;
      }
      remote := remote + BuildEntries(lang, id);
      var passed, maxTime, finalVerdict, firstError, attempted := RunCases(lang, cases, run);
      runs := runs + attempted;
      CleanupLeaves(lang, id, old(remote));
      Cleanup(lang, id);
      r := Judged(finalVerdict, passed, |cases|, maxTime, firstError);
    }

    /** Writing the source to the temporary directory and copying it into
        the container (for Java, after creating the job folder). The
        exception either step throws, if any, is returned. */
    method Stage(lang: Language, id: nat, writeErr: Option<string>, copyErr: Option<string>)
      returns (failure: Option<string>)
      modifies this
      ensures runs == old(runs)
      ensures writeErr.Some? ==> failure == writeErr && local == old(local) && remote == old(remote)
      ensures writeErr.None? ==> failure == copyErr && local == old(local) + {LocalName(lang, id)}
      ensures writeErr.None? && copyErr.Some? ==>
        remote == old(remote) + (if lang == Java then {SourceEntry(lang, id)} else {})
      ensures writeErr.None? && copyErr.None? ==> remote == old(remote) + {SourceEntry(lang, id)}
    {
      if writeErr.Some? {
        return writeErr;
      }
      local := local + {LocalName(lang, id)};
      var source := SourceEntry(lang, id);
      if lang == Java {
        remote := remote + {source};
      }
      if copyErr.Some? {
        return copyErr;
      }
      remote := remote + {source};
      failure := None;
    }

    /** `cleanup()`: the container's source entry (and the C++ binary)
        and the local file are removed. */
    method Cleanup(lang: Language, id: nat)
      modifies this
      ensures remote == old(remote) - Cleaned(lang, id)
      ensures local == old(local) - {LocalName(lang, id)} && runs == old(runs)
    {
      remote := remote - Cleaned(lang, id);
      local := local - {LocalName(lang, id)};
    }

    /** `evaluateCppCode`: "Compilation Error" on a failed `g++`, and
        carriage returns ignored in the comparison. */
    method EvaluateCpp(supply: TokenSupply, cases: seq<TestCase>,
                       writeErr: Option<string>, copyErr: Option<string>,
                       compile: CmdResult, run: nat -> CmdResult)
      returns (r: Report, id: nat)
      requires supply.Valid()
      modifies this, supply
      ensures supply.Valid() && id !in old(supply.issued)
      ensures writeErr.None? && copyErr.None? ==> r == Evaluation(Cpp, cases, compile, run)
      ensures writeErr.None? && copyErr.None? && compile.code != 0 ==>
        r.VerdictName() == "Compilation Error" && runs == old(runs)
      ensures writeErr.None? && copyErr.None? && compile.code == 0 ==>
        && local == old(local) - {"src_" + DecimalString(id) + ".cpp"}
        && remote == old(remote) - {"/src_" + DecimalString(id) + ".cpp", "/bin_" + DecimalString(id)}
    {
      r, id := Evaluate(supply, Cpp, cases, writeErr, copyErr, compile, run);
    }

    /** `evaluateJavaCode`: one `job_<id>` folder per submission, removed
        whole on a failed `javac` and after the cases. */
    method EvaluateJava(supply: TokenSupply, cases: seq<TestCase>,
                        writeErr: Option<string>, copyErr: Option<string>,
                        compile: CmdResult, run: nat -> CmdResult)
      returns (r: Report, id: nat)
      requires supply.Valid()
      modifies this, supply
      ensures supply.Valid() && id !in old(supply.issued)
      ensures writeErr.None? && copyErr.None? ==> r == Evaluation(Java, cases, compile, run)
      ensures writeErr.None? && copyErr.None? && compile.code != 0 ==>
        && r.VerdictName() == "Compilation Error" && runs == old(runs)
        && remote == old(remote) - {"/job_" + DecimalString(id)}
      ensures writeErr.None? && copyErr.None? && compile.code == 0 ==>
        remote == old(remote) - {"/job_" + DecimalString(id)}
    {
      r, id := Evaluate(supply, Java, cases, writeErr, copyErr, compile, run);
    }

    /** `evaluatePythonCode`: "Syntax Error" on a failed `py_compile`, and
        `script_<id>.py` removed after the cases while the bytecode file
        `py_compile` wrote stays. */
    method EvaluatePython(supply: TokenSupply, cases: seq<TestCase>,
                          writeErr: Option<string>, copyErr: Option<string>,
                          compile: CmdResult, run: nat -> CmdResult)
      returns (r: Report, id: nat)
      requires supply.Valid()
      modifies this, supply
      ensures supply.Valid() && id !in old(supply.issued)
      ensures writeErr.None? && copyErr.None? ==> r == Evaluation(Python, cases, compile, run)
      ensures writeErr.None? && copyErr.None? && compile.code != 0 ==>
        r.VerdictName() == "Syntax Error" && runs == old(runs)
      ensures writeErr.None? && copyErr.None? && compile.code == 0 ==>
        && local == old(local) - {"script_" + DecimalString(id) + ".py"}
        && remote == (old(remote) - {"/script_" + DecimalString(id) + ".py"}) + {PycName(id)}
        && PycName(id) in remote
    {
      r, id := Evaluate(supply, Python, cases, writeErr, copyErr, compile, run);
    }
  }
}

/**
  The receiver's pure computations about the file: the name it writes to while
  receiving (`dir.trim() + file.trim() + ".temp"`), the name it renames that file
  to at the end, and the completion percentage.
 */
module ReceptorArquivo {
  import opened JavaRuntime

  const SUFIXO_TEMP: string := ".temp"

  /** `String.trim` drops characters up to U+0020 from both ends. */
  predicate IsTrimmed(c: char) {
    c <= ' '
  }

  function TrimStart(s: string): string {
    if s != [] && IsTrimmed(s[0]) then TrimStart(s[1..]) else s
  }

  function TrimEnd(s: string): string {
    if s != [] && IsTrimmed(s[|s| - 1]) then TrimEnd(s[..|s| - 1]) else s
  }

  function Trim(s: string): string {
    TrimEnd(TrimStart(s))
  }

  lemma {:induction false} TrimStartShape(s: string)
    ensures var r := TrimStart(s);
      && |r| <= |s| && r == s[|s| - |r|..]
      && (r == [] || !IsTrimmed(r[0]))
      && forall i :: 0 <= i < |s| - |r| ==> IsTrimmed(s[i])
    decreases |s|
  {
    if s != [] && IsTrimmed(s[0]) {
      TrimStartShape(s[1..]);
      var r := TrimStart(s);
      forall i | 0 <= i < |s| - |r| ensures IsTrimmed(s[i]) {
        if i > 0 { assert s[1..][i - 1] == s[i]; }
      }
    }
  }

  lemma {:induction false} TrimEndShape(s: string)
    ensures var r := TrimEnd(s);
      && |r| <= |s| && r == s[..|r|]
      && (r == [] || !IsTrimmed(r[|r| - 1]))
      && forall i :: |r| <= i < |s| ==> IsTrimmed(s[i])
    decreases |s|
  {
    if s != [] && IsTrimmed(s[|s| - 1]) {
      var p := s[..|s| - 1];
      TrimEndShape(p);
      var r := TrimEnd(s);
      assert r == p[..|r|] == s[..|r|];
      forall i | |r| <= i < |s| ensures IsTrimmed(s[i]) {
        if i < |s| - 1 { assert p[i] == s[i]; }
      }
    }
  }

  /**
    `trim()` returns the part of the string between the characters it drops: a
    contiguous piece of the input that neither starts nor ends with a character up
    to U+0020, everything before and after it being such characters.
   */
  lemma TrimShape(s: string)
    ensures var r := Trim(s);
      && (r == [] || (!IsTrimmed(r[0]) && !IsTrimmed(r[|r| - 1])))
      && var a := |s| - |TrimStart(s)|;
      && 0 <= a <= |s| - |r|
      && r == s[a..a + |r|]
      && (forall i :: 0 <= i < a ==> IsTrimmed(s[i]))
      && (forall i :: a + |r| <= i < |s| ==> IsTrimmed(s[i]))
  {
    var t := TrimStart(s);
    TrimStartShape(s);
    TrimEndShape(t);
    var r := Trim(s);
    var a := |s| - |t|;
    assert r == t[..|r|] == s[a..a + |r|];
    forall i | a + |r| <= i < |s| ensures IsTrimmed(s[i]) {
      assert t[i - a] == s[i];
    }
  }

  /** The name the file is written under while it is being received. */
  function TempName(diretorio: string, arquivo: string): string {
    Trim(diretorio) + Trim(arquivo) + SUFIXO_TEMP
  }

  /** The characters Java's `.` does not match: the line terminators. */
  predicate IsLineTerminator(c: char) {
    c == '\n' || c == '\r' || c == '\U{0085}' || c == '\U{2028}' || c == '\U{2029}'
  }

  /** `caminho.matches("^.+(\\.temp)$")`: one or more non-terminators, then ".temp", then the end. */
  predicate MatchesTemp(caminho: string) {
    && |caminho| > |SUFIXO_TEMP|
    && caminho[|caminho| - |SUFIXO_TEMP|..] == SUFIXO_TEMP
    && forall i :: 0 <= i < |caminho| - |SUFIXO_TEMP| ==> !IsLineTerminator(caminho[i])
  }

  /** `renomearArquivo`: the new name, when the path matches; the file is not renamed otherwise. */
  function NovoNome(caminho: string): Option<string> {
    if MatchesTemp(caminho) then Some(caminho[..|caminho| - |SUFIXO_TEMP|]) else None
  }

  /**
    The file written while receiving is renamed to directory plus name (both
    trimmed) exactly when that name is non-empty and holds no line terminator;
    otherwise it keeps its ".temp" name.
   */
  lemma RenameUndoesTempName(diretorio: string, arquivo: string)
    ensures var base := Trim(diretorio) + Trim(arquivo);
      NovoNome(TempName(diretorio, arquivo))
        == if |base| >= 1 && forall i :: 0 <= i < |base| ==> !IsLineTerminator(base[i])
           then Some(base) else None
  {
    var base := Trim(diretorio) + Trim(arquivo);
    var path := TempName(diretorio, arquivo);
    assert path[..|path| - 5] == base;
    assert path[|path| - 5..] == SUFIXO_TEMP;
    if !(forall i :: 0 <= i < |base| ==> !IsLineTerminator(base[i])) {
      var i :| 0 <= i < |base| && IsLineTerminator(base[i]);
      assert path[i] == base[i];
    }
  }

  /** A renamed path is the old one without its last five characters, ".temp". */
  lemma NovoNomeStripsSuffix(caminho: string)
    ensures NovoNome(caminho).Some? ==>
      && caminho == NovoNome(caminho).value + SUFIXO_TEMP
      && |NovoNome(caminho).value| >= 1
  {
    if MatchesTemp(caminho) {
      assert caminho == caminho[..|caminho| - 5] + caminho[|caminho| - 5..];
    }
  }

  /**
    `getPorcentagemDeConclusao`: 0 while the total is unknown (0); otherwise the
    last ordered number times 100 (a Java int product) over the total.
   */
  function PorcentagemDeConclusao(ultimoPacoteOrdenado: int, quantidadeTotalDePacotes: int): real {
    if quantidadeTotalDePacotes == 0 then 0.0
    else Wrap32(ultimoPacoteOrdenado * 100) as real / quantidadeTotalDePacotes as real
  }

  /** With the total unknown the percentage is 0; with the progress within the total it is between 0 and 100. */
  lemma PorcentagemBounds(ultimoPacoteOrdenado: int, quantidadeTotalDePacotes: int)
    ensures quantidadeTotalDePacotes == 0 ==> PorcentagemDeConclusao(ultimoPacoteOrdenado, quantidadeTotalDePacotes) == 0.0
    ensures 0 <= ultimoPacoteOrdenado <= quantidadeTotalDePacotes && 0 < quantidadeTotalDePacotes
            && quantidadeTotalDePacotes * 100 <= INT_MAX ==>
      0.0 <= PorcentagemDeConclusao(ultimoPacoteOrdenado, quantidadeTotalDePacotes) <= 100.0
  {
    var l, t := ultimoPacoteOrdenado, quantidadeTotalDePacotes;
    if 0 <= l <= t && 0 < t && t * 100 <= INT_MAX {
      assert Wrap32(l * 100) == l * 100;
      var x: real := (l * 100) as real;
      var y: real := t as real;
      assert x <= 100.0 * y;
      assert x / y <= 100.0;
    }
  }
}

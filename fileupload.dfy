/** The upload control (components/FileUpload.tsx:12-34): a chosen file is
    handed on only when its extension is in the control's list of accepted
    extensions; otherwise an error naming the list is shown. */
module FileUpload {
  import opened Wrappers
  import opened Text

  /** A chosen file; only its name matters to the control. */
  datatype File = File(name: string)

  /** `'.' + file.name.split('.').pop()?.toLowerCase()`: the split always
      has a last part, so `pop()` never yields `undefined`. */
  function FileExtension(name: string): (ext: string)
    ensures |ext| >= 1 && ext[0] == '.' && '.' !in ext[1..]
  {
    var last := LastPart(name);
    assert last in Split(name, '.');
    LowerDot(last);
    var ext := "." + ToLower(last);
    assert ext[1..] == ToLower(last);
    ext
  }

  /** `name.split('.').pop()`. */
  function LastPart(name: string): string {
    var parts := Split(name, '.');
    parts[|parts| - 1]
  }

  /** `acceptedFiles.split(',').map(ext => ext.trim())`. */
  function AllowedExtensions(accepted: string): (allowed: seq<string>)
    ensures |allowed| == |Split(accepted, ',')|
    ensures forall i :: 0 <= i < |allowed| ==>
              allowed[i] == [] || (!IsSpace(allowed[i][0]) && !IsSpace(allowed[i][|allowed[i]| - 1]))
  {
    var parts := Split(accepted, ',');
    seq(|parts|, i requires 0 <= i < |parts| => Trim(parts[i]))
  }

  predicate Accepts(name: string, accepted: string): (ok: bool)
    ensures ok <==> FileExtension(ToUpper(name)) in AllowedExtensions(accepted)
  {
    ExtensionIgnoresCase(name);
    FileExtension(name) in AllowedExtensions(accepted)
  }

  /** The error shown for a rejected file; it quotes the accepted list as
      written. */
  function RejectMessage(accepted: string): (message: string)
    ensures Contains(message, accepted)
    ensures |message| > |accepted| && message[|message| - 1] == '.'
  {
    var lead := "Archivo no v\U{00E1}lido. Por favor, seleccione un archivo ";
    var message := lead + accepted + ".";
    assert message[|lead|..|lead| + |accepted|] == accepted;
    assert OccursAt(message, accepted, |lead|);
    message
  }

  // ---------------------------------------------------------------------
  // Properties

  lemma LowerDot(s: string)
    ensures '.' in ToLower(s) <==> '.' in s
  {
    if '.' in ToLower(s) {
      var i :| 0 <= i < |s| && ToLower(s)[i] == '.';
      assert LowerChar(s[i]) == '.';
    }
    if '.' in s {
      var i :| 0 <= i < |s| && s[i] == '.';
      assert ToLower(s)[i] == '.';
    }
  }

  /** The extension is a dot followed by the lower-cased text after the
      last dot of the name; a name without a dot gives a dot followed by
      the whole lower-cased name. */
  lemma ExtensionAfterLastDot(name: string)
    ensures '.' !in name ==> FileExtension(name) == "." + ToLower(name)
    ensures '.' in name ==> exists k :: LastSeparatorAt(name, '.', k) && FileExtension(name) == "." + ToLower(name[k + 1..])
    ensures |FileExtension(name)| >= 1 && FileExtension(name)[0] == '.' && '.' !in FileExtension(name)[1..]
  {
    SplitLast(name, '.');
    var parts := Split(name, '.');
    var last := LastPart(name);
    assert FileExtension(name) == "." + ToLower(last);
    assert last in parts;
    LowerDot(last);
    assert FileExtension(name)[1..] == ToLower(last);
  }

  /** The extension ignores the case of the name. */
  lemma ExtensionIgnoresCase(name: string)
    ensures FileExtension(ToUpper(name)) == FileExtension(name)
  {
    LastPartOfUpper(name);
    LowerOfUpper(LastPart(name));
  }

  lemma LowerOfUpper(s: string)
    ensures ToLower(ToUpper(s)) == ToLower(s)
  {
    assert forall i :: 0 <= i < |s| ==> LowerChar(UpperChar(s[i])) == LowerChar(s[i]);
  }

  /** Upper-casing keeps the dots where they are, so it commutes with
      taking the part after the last one. */
  lemma {:induction false} LastPartOfUpper(s: string)
    ensures LastPart(ToUpper(s)) == ToUpper(LastPart(s))
  {
    if s != [] {
      var u := ToUpper(s);
      assert u[1..] == ToUpper(s[1..]);
      assert u[0] == UpperChar(s[0]);
      UpperDot(s[1..]);
      LastPartCons(s);
      LastPartCons(u);
      LastPartOfUpper(s[1..]);
      if s[0] != '.' && '.' !in s[1..] {
        assert ToUpper([s[0]] + LastPart(s[1..])) == [u[0]] + ToUpper(LastPart(s[1..]));
      }
    }
  }

  /** The part after the last dot, one character at a time: a dot, or a
      dot further on, leaves it to the rest of the name; otherwise the
      first character belongs to it. */
  lemma LastPartCons(s: string)
    requires s != []
    ensures LastPart(s) == if s[0] == '.' || '.' in s[1..] then LastPart(s[1..]) else [s[0]] + LastPart(s[1..])
  {
    var rest := Split(s[1..], '.');
    if s[0] != '.' && |rest| == 1 {
      assert Join(rest, '.') == rest[0];
      assert rest[0] in rest;
    }
  }

  lemma UpperDot(s: string)
    ensures '.' in ToUpper(s) <==> '.' in s
  {
    if '.' in ToUpper(s) {
      var i :| 0 <= i < |s| && ToUpper(s)[i] == '.';
      assert UpperChar(s[i]) == '.';
    }
    if '.' in s {
      var i :| 0 <= i < |s| && s[i] == '.';
      assert ToUpper(s)[i] == '.';
    }
  }

  /** The accepted list has one entry per comma-separated item, none of
      them holding a comma or surrounding white space. */
  lemma AllowedExtensionsShape(accepted: string)
    ensures |AllowedExtensions(accepted)| == |Split(accepted, ',')| >= 1
    ensures forall e :: e in AllowedExtensions(accepted) ==>
              ',' !in e && (e == [] || (!IsSpace(e[0]) && !IsSpace(e[|e| - 1])))
  {
    var parts := Split(accepted, ',');
    var allowed := AllowedExtensions(accepted);
    forall i | 0 <= i < |allowed|
      ensures ',' !in allowed[i] && (allowed[i] == [] || (!IsSpace(allowed[i][0]) && !IsSpace(allowed[i][|allowed[i]| - 1])))
    {
      assert allowed[i] == Trim(parts[i]);
      assert parts[i] in parts;
      TrimChars(parts[i], ',');
    }
  }

  /** The control's state: the error shown, the value of the file input and
      the files handed on to the loader so far. */
  class Uploader {
    const accepted: string
    var error: Option<string>
    var inputValue: string
    var processed: seq<File>

    constructor(accepted: string)
      ensures this.accepted == accepted && error == None && inputValue == [] && processed == []
    {
      this.accepted := accepted;
      error := None;
      inputValue := [];
      processed := [];
    }

    /** `handleFileChange`: the error is cleared first; a rejected file
        sets the error and returns before the input is reset; an accepted
        file is handed on exactly once and the input reset; with no file
        the input is just reset. */
    method HandleFileChange(file: Option<File>)
      modifies this
      ensures file.None? ==> error == None && inputValue == [] && processed == old(processed)
      ensures file.Some? && Accepts(file.value.name, accepted) ==>
                error == None && inputValue == [] && processed == old(processed) + [file.value]
      ensures file.Some? && !Accepts(file.value.name, accepted) ==>
                error == Some(RejectMessage(accepted)) && inputValue == old(inputValue) && processed == old(processed)
    {
      error := None;
      if file.Some? {
        var extension := FileExtension(file.value.name);
        var allowed := AllowedExtensions(accepted);
        assert Accepts(file.value.name, accepted) <==> extension in allowed;
        if extension !in allowed {
          error := Some(RejectMessage(accepted));
          return;
        }
        processed := processed + [file.value];
      }
      inputValue := [];
    }
  }
}

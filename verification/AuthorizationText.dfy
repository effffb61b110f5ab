/**
The one message with free text in it: which endpoints and names survive the wire.
*/
module AuthorizationText {
  import opened Messages
  import opened Fields
  import opened Codec
  import TextStream

  /** No brace, no comma, no white space. */
  predicate Clean(s: string) { PlainField(s) && TextStream.NoSpace(s) }

  function Body(endpoint: string, name: string): string { Join([endpoint, name]) }

  lemma BodyIs(endpoint: string, name: string)
    ensures Body(endpoint, name) == endpoint + (", " + name)
  {
    var vs := [endpoint, name];
    assert vs[1..] == [name];
    assert [name][1..] == [];
    assert Following([name]) == ", " + (name + "");
    assert name + "" == name;
  }

  /** Reading a word never makes it longer. */
  lemma WordIsShort(s: string)
    ensures |Word(s)| <= |s|
  {}

  /** A field ends before any comma behind the cursor, and the cursor moves on. */
  lemma FieldIsShort(s: string, pos: nat, comma: nat)
    requires pos <= |s| && comma >= pos && (comma < |s| ==> s[comma] == ',') && comma <= |s|
    ensures NextField(s, pos).Ok?
    ensures var f := NextField(s, pos).value;
      |f.text| <= comma - pos && f.next >= pos
  {}

  /** The two words read from a cursor are the given ones. */
  predicate Reads(s: string, start: nat, endpoint: string, name: string) {
    && NextField(s, start).Ok?
    && NextField(s, NextField(s, start).value.next).Ok?
    && Word(NextField(s, start).value.text) == endpoint
    && Word(NextField(s, NextField(s, start).value.next).value.text) == name
  }

  /** A brace shifts the start, so that one of the two comes back shortened. */
  lemma BraceSpoils(s: string, start: nat, endpoint: string, name: string)
    requires s == endpoint + (", " + name)
    requires 0 < start <= |s| && s[start - 1] == '{'
    ensures !Reads(s, start, endpoint, name)
  {
    var comma := |endpoint|;
    assert s[comma] == ',' && s[comma + 1] == ' ';
    if Reads(s, start, endpoint, name) {
      var f := NextField(s, start).value;
      WordIsShort(f.text);
      WordIsShort(NextField(s, f.next).value.text);
      if start - 1 < comma {
        FieldIsShort(s, start, comma);
      } else {
        FieldIsShort(s, start, |s|);
        if f.next <= |s| {
          FieldIsShort(s, f.next, |s|);
        }
      }
    }
  }

  /** A comma in the endpoint ends it early ... */
  lemma FirstCommaSpoils(s: string, endpoint: string, name: string, i: nat)
    requires s == endpoint + (", " + name) && i < |endpoint| && endpoint[i] == ','
    ensures !Reads(s, 0, endpoint, name)
  {
    assert s[i] == ',';
    FieldIsShort(s, 0, i);
    WordIsShort(NextField(s, 0).value.text);
  }

  /** ... and one in the name ends that early. */
  lemma SecondCommaSpoils(s: string, endpoint: string, name: string, i: nat)
    requires s == endpoint + (", " + name) && i < |name| && name[i] == ',' && ',' !in endpoint
    ensures !Reads(s, 0, endpoint, name)
  {
    var next := |endpoint| + 2;
    assert "" + s == s;
    FieldBeforeComma("", endpoint, name);
    assert s[next + i] == ',';
    FieldIsShort(s, next, next + i);
    WordIsShort(NextField(s, next).value.text);
  }

  lemma PlainReads(s: string, endpoint: string, name: string)
    requires s == endpoint + (", " + name) && ',' !in endpoint && ',' !in name
    ensures Reads(s, 0, endpoint, name) <==> TextStream.NoSpace(endpoint) && TextStream.NoSpace(name)
  {
    assert "" + s == s;
    FieldBeforeComma("", endpoint, name);
    assert s == (endpoint + ", ") + name;
    LastField(endpoint + ", ", name);
    TextStream.WholeWordIff(endpoint);
    TextStream.WholeWordIff(name);
  }

  lemma BraceIn(s: string, endpoint: string, name: string)
    requires s == endpoint + (", " + name)
    ensures Find(s, '{', 0).None? <==> '{' !in endpoint && '{' !in name
  {
    assert forall i :: 0 <= i < |endpoint| ==> s[i] == endpoint[i];
    assert forall i :: 0 <= i < |name| ==> s[|endpoint| + 2 + i] == name[i];
  }

  lemma CommasOrNot(s: string, endpoint: string, name: string)
    requires s == endpoint + (", " + name) && '{' !in endpoint && '{' !in name
    ensures Reads(s, 0, endpoint, name) <==> Clean(endpoint) && Clean(name)
  {
    if ',' in endpoint {
      var i :| 0 <= i < |endpoint| && endpoint[i] == ',';
      FirstCommaSpoils(s, endpoint, name, i);
    } else if ',' in name {
      var i :| 0 <= i < |name| && name[i] == ',';
      SecondCommaSpoils(s, endpoint, name, i);
    } else {
      PlainReads(s, endpoint, name);
    }
  }

  lemma NotClean(endpoint: string, name: string)
    requires '{' in endpoint || '{' in name
    ensures !(Clean(endpoint) && Clean(name))
  {}

  lemma ReadsIff(s: string, start: nat, endpoint: string, name: string)
    requires s == endpoint + (", " + name) && start == StartOfFields(s)
    ensures Reads(s, start, endpoint, name) <==> Clean(endpoint) && Clean(name)
  {
    BraceIn(s, endpoint, name);
    if Find(s, '{', 0).Some? {
      BraceSpoils(s, start, endpoint, name);
      NotClean(endpoint, name);
    } else {
      CommasOrNot(s, endpoint, name);
    }
  }

  lemma DecodeReads(s: string, endpoint: string, name: string)
    ensures DecodeAuthorization(Frame("AuthorizationWithName", s)) == Ok(AuthorizationWithName(endpoint, name))
      <==> Reads(s, StartOfFields(s), endpoint, name)
  {
    UnframeFrame("AuthorizationWithName", s);
    ReadTwo(s, StartOfFields(s));
  }

  /** An authorization comes back as it was exactly when both texts are clean. */
  lemma AuthorizationBackIff(endpoint: string, name: string)
    ensures DecodeAuthorization(Frame("AuthorizationWithName", Body(endpoint, name)))
        == Ok(AuthorizationWithName(endpoint, name))
      <==> Clean(endpoint) && Clean(name)
  {
    BodyIs(endpoint, name);
    DecodeReads(Body(endpoint, name), endpoint, name);
    ReadsIff(Body(endpoint, name), StartOfFields(Body(endpoint, name)), endpoint, name);
  }

  lemma CommaAtTheEnd(s: string, p: nat)
    requires |s| == p + 2 && s[p] == '{' && s[p + 1] == ',' && forall i :: 0 <= i < p ==> s[i] != '{'
    ensures Vars(s, 2) == Thrown
  {
    FindAt(s, '{', 0, p);
    FindAt(s, ',', p + 1, p + 1);
    assert NextField(s, p + 1).value.next == p + 3;
    ReadTwo(s, p + 1);
  }

  /** Some texts make the receiver drop the message: the comma at the very end of the name leaves
      the cursor behind the end of the text. */
  lemma SomeNamesAreRejected(endpoint: string)
    requires PlainField(endpoint)
    ensures DecodeAuthorization(Frame("AuthorizationWithName", Body(endpoint, "{,"))) == Thrown
  {
    var s := Body(endpoint, "{,");
    UnframeFrame("AuthorizationWithName", s);
    BodyIs(endpoint, "{,");
    assert forall i :: 0 <= i < |endpoint| ==> s[i] == endpoint[i];
    CommaAtTheEnd(s, |endpoint| + 2);
  }
}

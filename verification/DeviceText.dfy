/**
 What the device makes of text: which states mean on, where a C string ends, what
 fits the topic buffer, and which part of a name is its key.
 */
module DeviceText {
  import opened DeviceSpec

  // ---------- states ----------

  /** Space, tab, line feed, vertical tab, form feed and carriage return. */
  predicate Blank(c: char) {
    c as int == 32 || 9 <= c as int <= 13
  }

  /** "on" in any mixture of cases stands at position `i`, with nothing but blanks around it. */
  predicate OnAt(s: string, i: nat) {
    && i + 2 <= |s| && (s[i] == 'o' || s[i] == 'O') && (s[i + 1] == 'n' || s[i + 1] == 'N')
    && forall k | 0 <= k < |s| && (k < i || i + 2 <= k) :: Blank(s[k])
  }

  lemma {:induction false} TrimLeftIs(s: string) returns (j: nat)
    ensures j <= |s| && TrimLeft(s) == s[j..] && (j < |s| ==> !Blank(s[j]))
    ensures forall k | 0 <= k < j :: Blank(s[k])
  {
    if s != "" && IsSpace(s[0]) {
      var i := TrimLeftIs(s[1..]);
      j := i + 1;
      forall k | 0 <= k < j
        ensures Blank(s[k])
      {
        assert k > 0 ==> s[k] == s[1..][k - 1];
      }
    } else {
      j := 0;
    }
  }

  lemma {:induction false} TrimRightIs(s: string) returns (j: nat)
    ensures j <= |s| && TrimRight(s) == s[..j] && (j > 0 ==> !Blank(s[j - 1]))
    ensures forall k | j <= k < |s| :: Blank(s[k])
    decreases |s|
  {
    if s != "" && IsSpace(s[|s| - 1]) {
      j := TrimRightIs(s[..|s| - 1]);
    } else {
      j := |s|;
    }
  }

  lemma LowerCharIs(c: char)
    ensures LowerChar(c) == 'o' <==> c == 'o' || c == 'O'
    ensures LowerChar(c) == 'n' <==> c == 'n' || c == 'N'
  {
    if 'A' <= c <= 'Z' {
      assert LowerChar(c) as int == c as int + 32;
      assert 'o' as int == 'O' as int + 32 && 'n' as int == 'N' as int + 32;
    }
  }

  lemma {:induction false} LowerIs(s: string)
    ensures |Lower(s)| == |s| && forall k | 0 <= k < |s| :: Lower(s)[k] == LowerChar(s[k])
  {
    if s != "" {
      LowerIs(s[1..]);
    }
  }

  lemma LowerOn(s: string)
    ensures Lower(s) == "on" <==> |s| == 2 && (s[0] == 'o' || s[0] == 'O') && (s[1] == 'n' || s[1] == 'N')
  {
    LowerIs(s);
    if |s| == 2 {
      LowerCharIs(s[0]);
      LowerCharIs(s[1]);
    }
  }

  /** A state means on exactly when it is "on" up to case and surrounding blanks; everything else means off. */
  lemma IsOnExactly(s: string)
    ensures IsOn(s) <==> exists i: nat :: OnAt(s, i)
  {
    var j := TrimLeftIs(s);
    var m := TrimRightIs(s[j..]);
    LowerOn(s[j..][..m]);
    if IsOn(s) {
      forall k | 0 <= k < |s| && (k < j || j + 2 <= k)
        ensures Blank(s[k])
      {
        assert k >= j ==> s[k] == s[j..][k - j];
      }
      assert OnAt(s, j);
    }
    if i: nat :| OnAt(s, i) {
      assert i == j;
      var t := s[j..];
      assert t[0] == s[i] && t[1] == s[i + 1];
      forall k | 2 <= k < |t|
        ensures Blank(t[k])
      {
        assert t[k] == s[j + k];
      }
      assert m == 2;
    }
  }

  // ---------- C strings and the buffer ----------

  /** A C string is everything before the first NUL. */
  lemma {:induction false} CStringIs(s: string)
    ensures CString(s) <= s && '\0' !in CString(s)
    ensures |CString(s)| < |s| ==> s[|CString(s)|] == '\0'
  {
    if s != "" && s[0] != '\0' {
      CStringIs(s[1..]);
    }
  }

  /** The device's topic for a name is as much of the full topic as 127 bytes hold. */
  lemma FullTopicIs(name: string)
    ensures var whole := "hmstt_channel/hmstt/" + name;
            FullTopic(name) <= whole && |FullTopic(name)| == if |whole| <= 127 then |whole| else 127
  {
  }

  // ---------- keys ----------

  /** The key is what follows the first slash, and the whole name where nothing does. */
  lemma ExtractKeyNameIs(head: string, rest: string)
    requires '/' !in head
    ensures ExtractKeyName(head) == head
    ensures ExtractKeyName(head + "/" + rest) == if rest == "" then head + "/" else rest
  {
    var name := head + "/" + rest;
    assert name[|head|] == '/' && forall i | 0 <= i < |head| :: name[i] == head[i];
    assert Separator(name) == |head|;
    assert name[|head| + 1..] == rest;
    assert Separator(head) == |head|;
  }
}

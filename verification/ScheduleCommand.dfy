/** "schedule add": the payload on its way from a client that sends it as one argument to the agent that joins words. */
module ScheduleCommand {
  import opened Text
  import opened Scheduler

  /** The words of a text with one blank between them. */
  function Squeeze(s: string): string {
    Join(Fields(s), ' ')
  }

  predicate Squeezed(s: string) {
    Squeeze(s) == s
  }

  lemma {:induction false} SqueezePlain(s: string)
    ensures OneLine(Squeeze(s)) && Trimmed(Squeeze(s))
    ensures TrimSpace(Squeeze(s)) == Squeeze(s)
  {
    FieldsAreWords(s);
    JoinPlain(Fields(s));
    TrimSelf(Squeeze(s));
  }

  lemma {:induction false} JoinSnoc(xs: seq<string>, y: string)
    ensures Join(xs + [y], ' ') == if xs == [] then y else Join(xs, ' ') + " " + y
  {
    if xs == [] {
      assert xs + [y] == [y];
    } else {
      JoinSnoc(xs[1..], y);
      assert (xs + [y])[1..] == xs[1..] + [y];
      if |xs| > 1 {
        AppendAssoc(xs[0] + [' '], Join(xs[1..], ' '), " " + y);
        AppendAssoc(xs[0] + [' '] + Join(xs[1..], ' '), " ", y);
        AppendAssoc(Join(xs[1..], ' '), " ", y);
      }
    }
  }

  lemma {:induction false} JoinCons(y: string, zs: seq<string>)
    ensures Join([y] + zs, ' ') == if zs == [] then y else y + " " + Join(zs, ' ')
  {
    assert ([y] + zs)[1..] == zs;
  }

  /** A word in the middle of a list of words. */
  lemma {:induction false} JoinMiddle(xs: seq<string>, y: string, zs: seq<string>)
    ensures Join(xs + [y] + zs, ' ')
         == (if xs == [] then "" else Join(xs, ' ') + " ") + y + (if zs == [] then "" else " " + Join(zs, ' '))
  {
    if xs == [] {
      JoinCons(y, zs);
      assert xs + [y] + zs == [y] + zs;
      if zs != [] {
        AppendAssoc(y, " ", Join(zs, ' '));
      }
      assert "" + y == y;
    } else {
      JoinMiddle(xs[1..], y, zs);
      assert (xs + [y] + zs)[1..] == xs[1..] + [y] + zs;
      var tail := if zs == [] then "" else " " + Join(zs, ' ');
      var lead := if xs[1..] == [] then "" else Join(xs[1..], ' ') + " ";
      AppendAssoc(lead, y, tail);
      AppendAssoc(xs[0] + [' '], lead, y + tail);
      AppendAssoc(xs[0] + [' '] + lead, y, tail);
      if xs[1..] == [] {
        assert xs[0] + [' '] + "" == xs[0] + " ";
        assert Join(xs, ' ') == xs[0];
      } else {
        AppendAssoc(xs[0] + [' '], Join(xs[1..], ' '), " ");
      }
    }
  }

  /** The words of two texts with a bar between them: the bar glues the words next to it. */
  lemma {:induction false} FieldsAroundBar(front: string, w: string, v: string, back: string)
    requires NoSpace(w) && NoSpace(v) && (front != "" ==> IsSpace(front[|front| - 1]))
      && (back != "" ==> IsSpace(back[0]))
    ensures Fields((front + w) + "|" + (v + back)) == Fields(front) + [w + "|" + v] + Fields(back)
  {
    var glued := w + "|" + v;
    assert Word(glued) by {
      assert !IsSpace('|');
    }
    hide NoSpace, IsSpace, Word;
    FieldsOfWord(glued, back);
    FieldsAppend(front, glued + back);
    AppendAssoc(Fields(front), [glued], Fields(back));
    assert (front + w) + "|" + (v + back) == front + (glued + back) by {
      AppendAssoc(front + w + "|", v, back);
      AppendAssoc(front, w, "|");
      AppendAssoc(front, w + "|", v);
      AppendAssoc(front, glued, back);
    }
  }

  /**
   * Squeezing a text and cutting it at its first bar squeezes what stands before the bar, up to a blank at its
   * end, and what stands after it, up to a blank at its beginning.
   */
  lemma {:induction false} SqueezeCut(a: string, b: string) returns (left: string, right: string)
    requires '|' !in a
    ensures Cut(Squeeze(a + "|" + b), '|') == Some((left, right))
    ensures TrimSpace(left) == Squeeze(a) && (right == Squeeze(b) || right == " " + Squeeze(b))
  {
    var front, w := SplitLastWord(a);
    var v, back := SplitFirstWord(b);
    FieldsAroundBar(front, w, v, back);
    left := (if Fields(front) == [] then "" else Join(Fields(front), ' ') + " ") + w;
    right := v + (if Fields(back) == [] then "" else " " + Join(Fields(back), ' '));
    LeftHalf(a, front, w);
    RightHalf(b, v, back);
    JoinMiddle(Fields(front), w + "|" + v, Fields(back));
    NoBarLeft(a, front, w, left);
    CutAt(left, '|', right);
    GluedHalves(if Fields(front) == [] then "" else Join(Fields(front), ' ') + " ", w, v,
                if Fields(back) == [] then "" else " " + Join(Fields(back), ' '));
  }

  lemma {:induction false} GluedHalves(x: string, w: string, v: string, y: string)
    ensures x + (w + "|" + v) + y == (x + w) + ['|'] + (v + y)
  {
    AppendAssoc(x, w + "|", v);
    AppendAssoc(x, w, "|");
    AppendAssoc(x + w + "|", v, y);
  }

  lemma {:induction false} NoBarLeft(a: string, front: string, w: string, left: string)
    requires '|' !in a && a == front + w
    requires left == (if Fields(front) == [] then "" else Join(Fields(front), ' ') + " ") + w
    ensures '|' !in left
  {
    hide Join, Fields;
    assert '|' !in front && '|' !in w by {
      assert forall c :: c in front ==> c in a;
      assert forall c :: c in w ==> c in a;
    }
    FieldChars(front, '|');
    JoinChars(Fields(front), '|');
  }

  lemma {:induction false} FieldChars(s: string, c: char)
    requires c !in s
    ensures forall f :: f in Fields(s) ==> c !in f
    decreases |s|
  {
    if s != "" {
      FieldChars(s[if IsSpace(s[0]) then 1 else WordLength(s)..], c);
    }
  }

  lemma {:induction false} JoinChars(parts: seq<string>, c: char)
    requires c != ' ' && forall p :: p in parts ==> c !in p
    ensures c !in Join(parts, ' ')
  {
    if |parts| > 1 {
      JoinChars(parts[1..], c);
      assert parts[0] in parts;
    }
  }

  lemma {:induction false} LeftHalf(a: string, front: string, w: string)
    requires Fields(a) == Fields(front) + (if w == "" then [] else [w])
    ensures TrimSpace((if Fields(front) == [] then "" else Join(Fields(front), ' ') + " ") + w) == Squeeze(a)
  {
    hide Fields, TrimSpace, Trimmed, OneLine;
    SqueezePlain(a);
    if w == "" {
      assert Fields(front) + [] == Fields(front);
      TrimTail(Squeeze(a));
      assert Squeeze(a) + " " + "" == Squeeze(a) + " ";
    } else {
      JoinSnoc(Fields(front), w);
      assert [] + [w] == [w] && "" + w == w;
    }
  }

  lemma {:induction false} RightHalf(b: string, v: string, back: string)
    requires Fields(b) == (if v == "" then [] else [v]) + Fields(back)
    ensures var right := v + (if Fields(back) == [] then "" else " " + Join(Fields(back), ' '));
      right == Squeeze(b) || right == " " + Squeeze(b)
  {
    hide Fields;
    if v == "" {
      assert [] + Fields(back) == Fields(back);
      assert "" + (" " + Squeeze(b)) == " " + Squeeze(b);
    } else {
      JoinCons(v, Fields(back));
      AppendAssoc(v, " ", Join(Fields(back), ' '));
      assert v + "" == v;
    }
  }

  lemma {:induction false} TrimTail(s: string)
    requires Trimmed(s)
    ensures TrimSpace(s + " ") == s && TrimSpace(" " + s) == s && TrimSpace(s + "") == s
  {
    TrimSpaceOfPadded("", s, " ");
    TrimSpaceOfPadded(" ", s, "");
    TrimSelf(s);
    assert "" + s + " " == s + " " && " " + s + "" == " " + s && s + "" == s;
  }

  function Payload(name: string, cron: string, command: string): string {
    name + "|" + (cron + "|" + command)
  }

  /** A leading blank changes nothing but the first part. */
  lemma {:induction false} CutBlank(s: string)
    ensures Cut(" " + s, '|') == match Cut(s, '|') { case Some((l, r)) => Some((" " + l, r)) case None => None }
  {
    assert (" " + s)[1..] == s;
  }

  lemma {:induction false} TrimLead(s: string)
    ensures TrimSpace(" " + s) == TrimSpace(s)
  {
    assert (" " + s)[1..] == s;
  }

  /** What the agent makes of a payload whose words it has joined again. */
  lemma {:induction false} PayloadParts(name: string, cron: string, command: string)
    requires '|' !in name && '|' !in cron
    ensures JobFields(Squeeze(Payload(name, cron, command)))
         == Some(SchedJob(Squeeze(name), Squeeze(cron), Squeeze(command)))
  {
    hide Squeeze, TrimSpace;
    var rest := cron + "|" + command;
    var left, right := SqueezeCut(name, rest);
    var left', right' := SqueezeCut(cron, command);
    CutBlank(Squeeze(rest));
    TrimLead(left');
    SqueezePlain(command);
    TrimLead(Squeeze(command));
  }

  /**
   * The agent reads back name, cron expression and command exactly when each is squeezed and the bars are those of
   * the payload.
   */
  lemma {:induction false} PayloadReceived(name: string, cron: string, command: string)
    ensures JobFields(Squeeze(Payload(name, cron, command))) == Some(SchedJob(name, cron, command))
       <==> '|' !in name && '|' !in cron && Squeezed(name) && Squeezed(cron) && Squeezed(command)
  {
    if '|' !in name && '|' !in cron {
      hide Squeeze;
      PayloadParts(name, cron, command);
    } else {
      NoBarInParts(Squeeze(Payload(name, cron, command)));
    }
  }

  lemma {:induction false} NoBarInParts(s: string)
    ensures JobFields(s).Some? ==> '|' !in JobFields(s).value.name && '|' !in JobFields(s).value.schedule
  {
    hide TrimSpace;
    if JobFields(s).Some? {
      var (name, rest) := Cut(s, '|').value;
      var (schedule, command) := Cut(rest, '|').value;
      TrimKeeps(name);
      TrimKeeps(schedule);
    }
  }
}

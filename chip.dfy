/** The status chip of the command center: the style class and the label shown for
    any command, task or project status, or "idle". */
module StatusChip {
  import opened Text
  import opened Hierarchy

  const SuccessStyle: string := "border-success/40 bg-success/20 text-success"
  const PrimaryStyle: string := "border-primary/40 bg-primary/25 text-text"
  const MutedStyle: string := "border-border bg-panel text-muted"
  const WarningStyle: string := "border-warning/40 bg-warning/20 text-warning"
  const DangerStyle: string := "border-danger/40 bg-danger/20 text-danger"
  /** The `default` branch of the switch. */
  const DefaultStyle: string := "border-border bg-panel text-text"

  /** `styleByStatus`: a switch over the status name. */
  function StyleByStatus(status: string): string
  {
    if status == "success" || status == "done" || status == "active" then SuccessStyle
    else if status == "running" || status == "in_progress" then PrimaryStyle
    else if status == "queued" || status == "todo" || status == "paused" || status == "idle" then MutedStyle
    else if status == "waiting_approval" then WarningStyle
    else if status == "failed" || status == "blocked" || status == "canceled" || status == "archived" then DangerStyle
    else DefaultStyle
  }

  /** The names the switch lists. */
  predicate Listed(status: string)
  {
    status in {"success", "done", "active", "running", "in_progress", "queued", "todo", "paused", "idle",
               "waiting_approval", "failed", "blocked", "canceled", "archived"}
  }

  /** Every status the chip can be given is listed: the default branch is reached
      only by other strings, and every listed name gets one of the five styles. */
  lemma EveryStatusListed(c: CommandStatus, t: TaskStatus, p: ProjectStatus)
    ensures Listed(c.Name()) && Listed(t.Name()) && Listed(p.Name()) && Listed("idle")
  {
  }

  lemma DefaultOnlyUnlisted(status: string)
    ensures StyleByStatus(status) == DefaultStyle <==> !Listed(status)
    ensures Listed(status) ==> StyleByStatus(status) in {SuccessStyle, PrimaryStyle, MutedStyle, WarningStyle, DangerStyle}
  {
    StylesDistinct();
  }

  /** Which statuses share a style: finished-well ones the success style, broken or
      closed ones the danger style. */
  lemma StyleGroups(status: string)
    ensures StyleByStatus(status) == SuccessStyle <==> status in {"success", "done", "active"}
  {
    StylesDistinct();
  }

  lemma StyleGroupsDanger(status: string)
    ensures StyleByStatus(status) == DangerStyle <==> status in {"failed", "blocked", "canceled", "archived"}
  {
    StylesDistinct();
  }

  /** `waiting_approval` alone gets the warning style; the not-yet-started statuses
      and "idle" the muted one. */
  lemma StyleGroupsPending(status: string)
    ensures StyleByStatus(status) == WarningStyle <==> status == "waiting_approval"
    ensures StyleByStatus(status) == MutedStyle <==> status in {"queued", "todo", "paused", "idle"}
  {
    StylesDistinct();
  }

  /** The six style strings are pairwise different. */
  lemma StylesDistinct()
    ensures SuccessStyle != PrimaryStyle && SuccessStyle != MutedStyle && SuccessStyle != WarningStyle
    ensures SuccessStyle != DangerStyle && SuccessStyle != DefaultStyle
    ensures PrimaryStyle != MutedStyle && PrimaryStyle != WarningStyle && PrimaryStyle != DangerStyle
    ensures PrimaryStyle != DefaultStyle && MutedStyle != WarningStyle && MutedStyle != DangerStyle
    ensures MutedStyle != DefaultStyle && WarningStyle != DangerStyle && WarningStyle != DefaultStyle
    ensures DangerStyle != DefaultStyle
  {
    assert SuccessStyle[7] == 's' && PrimaryStyle[7] == 'p' && MutedStyle[7] == 'b';
    assert WarningStyle[7] == 'w' && DangerStyle[7] == 'd' && DefaultStyle[7] == 'b';
    assert MutedStyle[28] == 'm' && DefaultStyle[28] == 't';
  }

  /** `labelByStatus`. */
  function LabelByStatus(status: string): string
  {
    ReplaceUnderscores(status)
  }

  /** Labels of different task statuses differ. */
  lemma TaskLabelsDistinct(a: TaskStatus, b: TaskStatus)
    ensures a != b ==> LabelByStatus(a.Name()) != LabelByStatus(b.Name())
  {
    assert ' ' !in a.Name() && ' ' !in b.Name();
    ReplaceUnderscoresInjective(a.Name(), b.Name());
  }

  /** Labels of different command statuses differ. */
  lemma CommandLabelsDistinct(c: CommandStatus, d: CommandStatus)
    ensures c != d ==> LabelByStatus(c.Name()) != LabelByStatus(d.Name())
  {
    assert ' ' !in c.Name() && ' ' !in d.Name();
    ReplaceUnderscoresInjective(c.Name(), d.Name());
  }

  lemma ReplaceUnderscoresKeeps(s: string)
    ensures ReplaceUnderscores(s) == s <==> '_' !in s
  {
    if '_' !in s {
      ReplaceUnderscoresFixed(s);
    }
  }

  /** On names without spaces the replacement loses nothing. */
  lemma ReplaceUnderscoresInjective(x: string, y: string)
    requires ' ' !in x && ' ' !in y
    ensures ReplaceUnderscores(x) == ReplaceUnderscores(y) ==> x == y
  {
    var rx, ry := ReplaceUnderscores(x), ReplaceUnderscores(y);
    if rx == ry {
      forall i | 0 <= i < |x| ensures x[i] == y[i] {
        assert rx[i] == ry[i];
      }
    }
  }
}

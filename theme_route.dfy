/**
 * `/api/theme`: the colour theme of the application, stored in a file.
 * Any signed-in user reads it (GET); an admin changes it (PUT) by sending
 * some of its ten fields, the others being kept. The file itself is a
 * parameter: its parsed content, or `None` when it is missing or unreadable.
 */
module ThemeRoute {
  import opened Wrappers
  import opened Api
  import Rbac

  datatype Gradient = Gradient(from: string, via: string, to: string, stop4: string, direction: string)

  datatype Colors = Colors(
    navText: string, navTextHover: string, headerTitle: string, headerSubtitle: string, tableHeaderText: string)

  datatype Theme = Theme(gradient: Gradient, colors: Colors)

  /** The gradient part of a request body; an absent or null field is `None`. */
  datatype GradientBody = GradientBody(
    from: Option<string>, via: Option<string>, to: Option<string>, stop4: Option<string>, direction: Option<string>)

  /** The colours part of a request body. */
  datatype ColorsBody = ColorsBody(
    navText: Option<string>, navTextHover: Option<string>, headerTitle: Option<string>,
    headerSubtitle: Option<string>, tableHeaderText: Option<string>)

  /** A PUT body: only the two known groups are read, any other key is dropped. A null body is `ThemeBody(None, None)`. */
  datatype ThemeBody = ThemeBody(gradient: Option<GradientBody>, colors: Option<ColorsBody>)

  /** The theme used when the file is missing or unreadable. */
  const DEFAULT_THEME: Theme := Theme(
    Gradient("#ffffff", "#1e40af", "#0b1229", "#ffffff", "to right"),
    Colors("#0b1229", "#0a1a4a", "#ffffff", "#ffffff", "#6b7280"))

  /** `readTheme()` */
  function ReadTheme(file: Option<Theme>): (t: Theme)
    ensures file.None? ==> t == DEFAULT_THEME
    ensures file.Some? ==> t == file.value
  {
    file.GetOr(DEFAULT_THEME)
  }

  /** `x ?? fallback` */
  function Or(x: Option<string>, fallback: string): string {
    if x.Some? then x.value else fallback
  }

  /** `body?.gradient?.<field> ?? theme.gradient.<field>`, field by field. */
  function MergeGradient(b: Option<GradientBody>, g: Gradient): Gradient {
    match b
    case None => g
    case Some(p) => Gradient(Or(p.from, g.from), Or(p.via, g.via), Or(p.to, g.to), Or(p.stop4, g.stop4),
                             Or(p.direction, g.direction))
  }

  /** `body?.colors?.<field> ?? theme.colors.<field>`, field by field. */
  function MergeColors(b: Option<ColorsBody>, c: Colors): Colors {
    match b
    case None => c
    case Some(p) => Colors(Or(p.navText, c.navText), Or(p.navTextHover, c.navTextHover),
                           Or(p.headerTitle, c.headerTitle), Or(p.headerSubtitle, c.headerSubtitle),
                           Or(p.tableHeaderText, c.tableHeaderText))
  }

  /** `next`: the current theme with every field the body gives replaced. */
  function Merge(body: ThemeBody, t: Theme): Theme {
    Theme(MergeGradient(body.gradient, t.gradient), MergeColors(body.colors, t.colors))
  }

  /** The body that changes nothing. */
  const EMPTY_BODY: ThemeBody := ThemeBody(None, None)

  /** The body that sets every field to its value in `t`. */
  function FullBody(t: Theme): ThemeBody {
    ThemeBody(
      Some(GradientBody(Some(t.gradient.from), Some(t.gradient.via), Some(t.gradient.to), Some(t.gradient.stop4),
                        Some(t.gradient.direction))),
      Some(ColorsBody(Some(t.colors.navText), Some(t.colors.navTextHover), Some(t.colors.headerTitle),
                      Some(t.colors.headerSubtitle), Some(t.colors.tableHeaderText))))
  }

  /** A field the body gives wins, one it leaves out is kept; so an empty body keeps the theme, a full body replaces it, and merging twice is merging once. */
  lemma MergeLaws(body: ThemeBody, t: Theme, u: Theme)
    ensures Merge(EMPTY_BODY, t) == t
    ensures Merge(FullBody(u), t) == u
    ensures Merge(body, Merge(body, t)) == Merge(body, t)
    ensures body.gradient.Some? && body.gradient.value.from.Some? ==> Merge(body, t).gradient.from == body.gradient.value.from.value
    ensures (body.gradient.None? || body.gradient.value.from.None?) ==> Merge(body, t).gradient.from == t.gradient.from
    ensures body.colors.Some? && body.colors.value.navText.Some? ==> Merge(body, t).colors.navText == body.colors.value.navText.value
    ensures (body.colors.None? || body.colors.value.navText.None?) ==> Merge(body, t).colors.navText == t.colors.navText
  {
  }

  /** Two successive changes are one change whose fields come from the later body where it gives them. */
  function Then(first: ThemeBody, second: ThemeBody): ThemeBody {
    ThemeBody(
      match (first.gradient, second.gradient)
      case (None, g) => g
      case (g, None) => g
      case (Some(a), Some(b)) => Some(GradientBody(
        if b.from.Some? then b.from else a.from, if b.via.Some? then b.via else a.via,
        if b.to.Some? then b.to else a.to, if b.stop4.Some? then b.stop4 else a.stop4,
        if b.direction.Some? then b.direction else a.direction)),
      match (first.colors, second.colors)
      case (None, c) => c
      case (c, None) => c
      case (Some(a), Some(b)) => Some(ColorsBody(
        if b.navText.Some? then b.navText else a.navText,
        if b.navTextHover.Some? then b.navTextHover else a.navTextHover,
        if b.headerTitle.Some? then b.headerTitle else a.headerTitle,
        if b.headerSubtitle.Some? then b.headerSubtitle else a.headerSubtitle,
        if b.tableHeaderText.Some? then b.tableHeaderText else a.tableHeaderText)))
  }

  lemma MergeThen(first: ThemeBody, second: ThemeBody, t: Theme)
    ensures Merge(second, Merge(first, t)) == Merge(Then(first, second), t)
  {
  }

  /** GET: the stored theme, or the default one. */
  function Get(session: Option<Rbac.Session>, file: Option<Theme>): Reply<Theme> {
    if session.None? then Unauthorized() else Ok(ReadTheme(file), None)
  }

  /**
   * PUT: `body` is `None` when the request body is not JSON. Besides the
   * reply, the theme written back to the file, if any.
   */
  function Put(session: Option<Rbac.Session>, body: Option<ThemeBody>, file: Option<Theme>): (Reply<Theme>, Option<Theme>) {
    if session.None? then (Unauthorized(), None)
    else if session.value.role != "admin" then (Forbidden(), None)
    else if body.None? then (ServerError(), None)
    else
      var next := Merge(body.value, ReadTheme(file));
      (Ok(next, None), Some(next))
  }

  /** Who gets which status; only a successful PUT writes the file. */
  lemma Status(session: Option<Rbac.Session>, body: Option<ThemeBody>, file: Option<Theme>)
    ensures Get(session, file).Status() == 401 <==> session.None?
    ensures Get(session, file).Ok? <==> session.Some?
    ensures Put(session, body, file).0.Status() == 401 <==> session.None?
    ensures Put(session, body, file).0.Status() == 403 <==> session.Some? && session.value.role != "admin"
    ensures Put(session, body, file).0.Ok? <==> session.Some? && session.value.role == "admin" && body.Some?
    ensures Put(session, body, file).1.Some? <==> Put(session, body, file).0.Ok?
  {
  }

  /** After a successful PUT, every GET returns the theme the PUT replied with. */
  lemma PutThenGet(admin: Rbac.Session, reader: Rbac.Session, body: ThemeBody, file: Option<Theme>)
    requires admin.role == "admin"
    ensures var (reply, written) := Put(Some(admin), Some(body), file);
      reply.Ok? && written.Some? && Get(Some(reader), written) == Ok(reply.data, None)
    ensures Put(Some(admin), Some(body), None).0.data == Merge(body, DEFAULT_THEME)
  {
  }
}

/**
  The language-dependent tables of the browser editor (editor/static/editor/js/main.js):
  what a change of the language selector shows, and the file the Download button produces.
 */
module EditorTables {
  import opened Strings

  /**
    What the editor shows for a language: the three web editors (HTML, CSS, JavaScript),
    or the main editor with a CodeMirror mode, a displayed file name and its starting text.
   */
  datatype EditorView = WebEditors | MainEditor(mode: string, filename: string, text: string)

  /** The four languages the main editor knows by name. */
  predicate NamedLanguage(lang: string) {
    lang == "python" || lang == "c" || lang == "cpp" || lang == "java"
  }

  /**
    The text a language change puts in the main editor: the page's demo snippet for the
    language when there is a non-empty one, and otherwise a placeholder comment.
   */
  function StartingText(lang: string, demos: map<string, string>): (text: string)
    ensures lang in demos && demos[lang] != "" ==> text == demos[lang]
    ensures !(lang in demos && demos[lang] != "") ==> StartsWith(text, "# " + lang) && text != ""
  {
    if lang in demos && demos[lang] != "" then demos[lang] else "# " + lang + " code here..."
  }

  /** The language selector's change handler; any other value than the four is shown as Python. */
  function ViewFor(lang: string, demos: map<string, string>): (v: EditorView)
    ensures v.WebEditors? <==> lang == "web"
    ensures v.MainEditor? ==> v.text == StartingText(lang, demos)
    ensures v.MainEditor? && !NamedLanguage(lang) ==> v.mode == "python" && v.filename == "script.py"
  {
    if lang == "web" then WebEditors
    else
      var text := StartingText(lang, demos);
      if lang == "c" then MainEditor("text/x-csrc", "main.c", text)
      else if lang == "cpp" then MainEditor("text/x-c++src", "main.cpp", text)
      else if lang == "java" then MainEditor("text/x-java", "Main.java", text)
      else MainEditor("python", "script.py", text)
  }

  /** The extension of a downloaded file with no displayed name: `txt` for an unknown language. */
  function DownloadExtension(lang: string): (ext: string)
    ensures NamedLanguage(lang) ==> ext == (if lang == "python" then "py" else lang)
    ensures !NamedLanguage(lang) ==> ext == "txt"
  {
    if lang == "python" then "py"
    else if lang == "c" then "c"
    else if lang == "cpp" then "cpp"
    else if lang == "java" then "java"
    else "txt"
  }

  /** The single page the web mode downloads, with the style in the head and the script last. */
  function WebPage(html: string, css: string, js: string): string {
    "<!DOCTYPE html>\n<html>\n<head>\n<style>\n" + css + "\n</style>\n</head>\n<body>\n"
    + html + "\n<script>\n" + js + "\n</script>\n</body>\n</html>"
  }

  /**
    The Download button: the web mode saves `index.html` built from the three editors; the
    main editor saves its text under the displayed file name, or `code.<extension>` when
    that name is empty.
   */
  function Download(lang: string, shownName: string, code: string, html: string, css: string, js: string): (file: (string, string))
    ensures lang == "web" ==> file == ("index.html", WebPage(html, css, js))
    ensures lang != "web" ==> file.1 == code
    ensures lang != "web" && shownName != "" ==> file.0 == shownName
    ensures lang != "web" && shownName == "" ==> file.0 == "code." + DownloadExtension(lang)
  {
    if lang == "web" then ("index.html", WebPage(html, css, js))
    else
      var name := if shownName != "" then shownName else "code." + DownloadExtension(lang);
      (name, code)
  }

  /** The downloaded page holds the CSS, then the HTML, then the JavaScript, each verbatim. */
  lemma WebPageOrder(html: string, css: string, js: string)
    ensures var page := WebPage(html, css, js);
      var c := |"<!DOCTYPE html>\n<html>\n<head>\n<style>\n"|;
      var h := c + |css| + |"\n</style>\n</head>\n<body>\n"|;
      var j := h + |html| + |"\n<script>\n"|;
      && OccursAt(page, css, c) && OccursAt(page, html, h) && OccursAt(page, js, j)
      && c + |css| <= h && h + |html| <= j
  {
    var head, mid, tail, foot := "<!DOCTYPE html>\n<html>\n<head>\n<style>\n", "\n</style>\n</head>\n<body>\n", "\n<script>\n", "\n</script>\n</body>\n</html>";
    var page := WebPage(html, css, js);
    assert page == head + css + mid + html + tail + js + foot;
    var c := |head|;
    var h := c + |css| + |mid|;
    var j := h + |html| + |tail|;
    assert page[c..c + |css|] == css;
    assert page[h..h + |html|] == html;
    assert page[j..j + |js|] == js;
  }

  /**
    For each of the four languages, the name the editor displays ends in the extension the
    Download button would use for that language, so the two agree.
   */
  lemma DisplayedNameHasDownloadExtension(lang: string, demos: map<string, string>)
    requires NamedLanguage(lang)
    ensures ViewFor(lang, demos).MainEditor?
    ensures EndsWith(ViewFor(lang, demos).filename, "." + DownloadExtension(lang))
    ensures Download(lang, ViewFor(lang, demos).filename, "", "", "", "").0 == ViewFor(lang, demos).filename
  {
  }

  /** A download from the main editor always has a non-empty name. */
  lemma DownloadNameNonEmpty(lang: string, shownName: string, code: string)
    ensures Download(lang, shownName, code, "", "", "").0 != ""
  {
  }
}
